/**
 Incremental readers of growing event logs.  A reader remembers how far it has read and
 parses only the lines that were completed since; a line that cannot be parsed raises.
 Parsing one line is a parameter, and None stands for a raised exception.
 */
module LogReaders {
  import opened Bytes

  const LF: Byte := 10
  const CR: Byte := 13

  datatype Row = Row(event: Option<string>, fields: Blob)

  // ----- Lines

  /** `bytes.splitlines()`, reading byte by byte with the line collected so far: lines end at
      LF, CR or CR LF, and the end of the last one may be missing. */
  function Lines(b: Blob, open: Blob): seq<Blob>
    decreases |b|
  {
    if b == [] then if open == [] then [] else [open]
    else if b[0] == LF then [open] + Lines(b[1..], [])
    else if b[0] == CR then [open] + Lines(if |b| > 1 && b[1] == LF then b[2..] else b[1..], [])
    else Lines(b[1..], open + [b[0]])
  }

  function SplitLines(b: Blob): seq<Blob> {
    Lines(b, [])
  }

  // ----- What a line is

  datatype Ending = Lf | Cr | CrLf

  /** A line and what ends it. */
  datatype Ended = Ended(text: Blob, ending: Ending) {
    function Bytes(): Blob {
      text + match ending case Lf => [LF] case Cr => [CR] case CrLf => [CR, LF]
    }
  }

  predicate NoEndings(b: Blob) {
    forall i :: 0 <= i < |b| ==> b[i] != LF && b[i] != CR
  }

  /** Lines without line ends in them; a CR is not followed by what would make it a CR LF. */
  predicate Separate(es: seq<Ended>) {
    && (forall i :: 0 <= i < |es| ==> NoEndings(es[i].text))
    && (forall i :: 0 <= i < |es| - 1 && es[i].ending.Cr? ==> es[i + 1].text != [] || es[i + 1].ending != Lf)
  }

  function Written(es: seq<Ended>): Blob {
    if es == [] then [] else es[0].Bytes() + Written(es[1..])
  }

  function Texts(es: seq<Ended>): seq<Blob> {
    if es == [] then [] else [es[0].text] + Texts(es[1..])
  }

  /** Reading over bytes that end no line. */
  lemma {:induction false} LinesOpen(open: Blob, text: Blob, rest: Blob)
    requires NoEndings(text)
    ensures Lines(text + rest, open) == Lines(rest, open + text)
    decreases |text|
  {
    if text == [] {
      assert text + rest == rest && open + text == open;
    } else {
      assert (text + rest)[0] == text[0] && (text + rest)[1..] == text[1..] + rest;
      LinesOpen(open + [text[0]], text[1..], rest);
      assert (open + [text[0]]) + text[1..] == open + text;
    }
  }

  lemma LinesEnd(open: Blob, ending: Ending, rest: Blob)
    requires ending.Cr? ==> rest == [] || rest[0] != LF
    ensures Lines(Ended([], ending).Bytes() + rest, open) == [open] + Lines(rest, [])
  {
    var b := Ended([], ending).Bytes() + rest;
    match ending {
      case Lf => assert b[0] == LF && b[1..] == rest;
      case Cr => assert b[0] == CR && b[1..] == rest;
      case CrLf => assert b[0] == CR && b[1] == LF && b[2..] == rest;
    }
  }

  lemma NotContinued(es: seq<Ended>)
    requires Separate(es) && es != [] && es[0].ending.Cr?
    ensures Written(es[1..]) == [] || Written(es[1..])[0] != LF
  {
    if |es| > 1 {
      assert es[0 + 1].text != [] || es[0 + 1].ending != Lf;
      assert es[1..][0] == es[1];
      var next := es[1].Bytes();
      assert Written(es[1..]) == next + Written(es[1..][1..]);
      assert next[0] == if es[1].text != [] then es[1].text[0] else CR;
    }
  }

  /** The lines of a text that ends with a line end: LF, CR and CR LF each end one. */
  lemma {:induction false} LinesOfWritten(es: seq<Ended>)
    requires Separate(es)
    ensures SplitLines(Written(es)) == Texts(es)
  {
    if es != [] {
      var e, rest := es[0], Written(es[1..]);
      assert forall i :: 0 <= i < |es[1..]| ==> es[1..][i] == es[i + 1];
      LinesOfWritten(es[1..]);
      if e.ending.Cr? {
        NotContinued(es);
      }
      var mark := Ended([], e.ending).Bytes();
      assert e.Bytes() + rest == e.text + (mark + rest);
      LinesOpen([], e.text, mark + rest);
      assert [] + e.text == e.text;
      LinesEnd(e.text, e.ending, rest);
    }
  }

  /** An unfinished last line counts as one. */
  lemma LineUnfinished(text: Blob)
    requires NoEndings(text)
    ensures SplitLines(text) == if text == [] then [] else [text]
  {
    LinesOpen([], text, []);
    assert text + [] == text && [] + text == text;
  }

  /** `data.rfind(b"\n") + 1`: the length of the complete lines. */
  function Complete(b: Blob): (n: nat)
    ensures n <= |b|
    ensures n > 0 ==> b[n - 1] == LF
    ensures forall i :: n <= i < |b| ==> b[i] != LF
  {
    if b == [] then 0
    else if b[|b| - 1] == LF then |b|
    else Complete(b[..|b| - 1])
  }

  /** Where the complete lines from an offset on end. */
  function End(b: Blob, offset: nat): (n: nat)
    requires offset <= |b|
    ensures offset <= n <= |b|
  {
    offset + Complete(b[offset..])
  }

  /** The lines completed since an offset. */
  function NewLines(b: Blob, offset: nat): seq<Blob>
    requires offset <= |b|
  {
    SplitLines(b[offset..End(b, offset)])
  }

  /** A position where no line is open. */
  predicate Boundary(b: Blob, n: nat) {
    n <= |b| && (n == 0 || b[n - 1] == LF)
  }

  /** Cutting a log right after a newline cuts its lines in two. */
  lemma {:induction false} LinesCut(a: Blob, b: Blob, open: Blob)
    requires a != [] && a[|a| - 1] == LF
    ensures Lines(a + b, open) == Lines(a, open) + Lines(b, [])
    decreases |a|
  {
    var skip := if a[0] == CR && |a| > 1 && a[1] == LF then 2 else 1;
    var rest := a[skip..];
    assert (a + b)[skip..] == rest + b;
    if rest == [] {
      assert rest + b == b;
    } else {
      LinesCut(rest, b, if a[0] == LF || a[0] == CR then [] else open + [a[0]]);
    }
  }

  lemma SplitAtNewline(a: Blob, b: Blob)
    requires a == [] || a[|a| - 1] == LF
    ensures SplitLines(a + b) == SplitLines(a) + SplitLines(b)
  {
    if a == [] {
      assert a + b == b;
    } else {
      LinesCut(a, b, []);
    }
  }

  lemma PrefixLines(b: Blob, n: nat, m: nat)
    requires Boundary(b, n) && n <= m <= |b|
    ensures SplitLines(b[..m]) == SplitLines(b[..n]) + SplitLines(b[n..m])
  {
    SplitAtNewline(b[..n], b[n..m]);
    assert b[..n] + b[n..m] == b[..m];
  }

  lemma CompleteSplits(b: Blob, n: nat)
    requires Boundary(b, n)
    ensures Complete(b) == End(b, n)
    ensures SplitLines(b[..Complete(b)]) == SplitLines(b[..n]) + NewLines(b, n)
  {
    PrefixLines(b, n, End(b, n));
  }

  // ----- Parsing

  /** The rows of the lines up to the first that does not parse. */
  function Rows(lines: seq<Blob>, parse: Blob -> Option<Row>): seq<Row> {
    if lines == [] || parse(lines[0]).None? then []
    else [parse(lines[0]).value] + Rows(lines[1..], parse)
  }

  predicate AllParse(lines: seq<Blob>, parse: Blob -> Option<Row>) {
    forall i :: 0 <= i < |lines| ==> parse(lines[i]).Some?
  }

  lemma {:induction false} RowsConcat(xs: seq<Blob>, ys: seq<Blob>, parse: Blob -> Option<Row>)
    ensures AllParse(xs, parse) ==> Rows(xs + ys, parse) == Rows(xs, parse) + Rows(ys, parse)
    ensures AllParse(xs + ys, parse) <==> AllParse(xs, parse) && AllParse(ys, parse)
  {
    assert AllParse(xs + ys, parse) ==> AllParse(xs, parse) && AllParse(ys, parse) by {
      assert forall i :: 0 <= i < |xs| ==> (xs + ys)[i] == xs[i];
      assert forall i :: 0 <= i < |ys| ==> (xs + ys)[|xs| + i] == ys[i];
    }
    if xs == [] {
      assert xs + ys == ys;
    } else {
      RowsConcat(xs[1..], ys, parse);
      assert (xs + ys)[1..] == xs[1..] + ys;
    }
  }

  /** Where all lines parse there is one row for each, in order. */
  lemma {:induction false} RowsOfAll(lines: seq<Blob>, parse: Blob -> Option<Row>)
    requires AllParse(lines, parse)
    ensures |Rows(lines, parse)| == |lines|
    ensures forall i :: 0 <= i < |lines| ==> parse(lines[i]) == Some(Rows(lines, parse)[i])
  {
    if lines != [] {
      RowsOfAll(lines[1..], parse);
      var rest := Rows(lines[1..], parse);
      forall i | 0 <= i < |lines|
        ensures parse(lines[i]) == Some(Rows(lines, parse)[i])
      {
        if i > 0 {
          assert lines[i] == lines[1..][i - 1] && Rows(lines, parse)[i] == rest[i - 1];
        }
      }
    }
  }

  /** Reading the whole file at once: the rows of every complete line, or an exception. */
  function Batch(content: Blob, parse: Blob -> Option<Row>): Option<seq<Row>> {
    var lines := SplitLines(content[..Complete(content)]);
    if AllParse(lines, parse) then Some(Rows(lines, parse)) else None
  }

  // ----- What a reader remembers

  /** Everything before the offset has been parsed into `rows`. */
  ghost predicate CaughtUp(offset: nat, rows: seq<Row>, content: Blob, parse: Blob -> Option<Row>) {
    && Boundary(content, offset)
    && AllParse(SplitLines(content[..offset]), parse)
    && rows == Rows(SplitLines(content[..offset]), parse)
  }

  /** A complete line past the offset does not parse, so every further read raises. */
  ghost predicate Stuck(offset: nat, content: Blob, parse: Blob -> Option<Row>) {
    Boundary(content, offset) && !AllParse(NewLines(content, offset), parse)
  }

  ghost predicate Tracks(offset: nat, rows: seq<Row>, content: Blob, parse: Blob -> Option<Row>) {
    CaughtUp(offset, rows, content, parse) || Stuck(offset, content, parse)
  }

  /** A newline-complete stretch is split where its first part ends. */
  lemma LinesBetween(b: Blob, from: nat, mid: nat, to: nat)
    requires from <= mid <= to <= |b| && Boundary(b, mid)
    ensures SplitLines(b[from..to]) == SplitLines(b[from..mid]) + SplitLines(b[mid..to])
  {
    assert b[from..mid] + b[mid..to] == b[from..to];
    assert mid > from ==> b[from..mid][mid - from - 1] == b[mid - 1];
    SplitAtNewline(b[from..mid], b[mid..to]);
  }

  lemma EndGrows(content: Blob, more: Blob, offset: nat)
    requires Boundary(content, offset)
    ensures Boundary(content + more, End(content, offset))
    ensures End(content, offset) <= End(content + more, offset)
  {
    var grown, end := content + more, End(content, offset);
    assert Boundary(grown, offset);
  }

  /** The lines completed since an offset stay in front when the log grows. */
  lemma NewLinesGrow(content: Blob, more: Blob, offset: nat) returns (later: seq<Blob>)
    requires Boundary(content, offset)
    ensures NewLines(content + more, offset) == NewLines(content, offset) + later
  {
    var grown, end, end' := content + more, End(content, offset), End(content + more, offset);
    EndGrows(content, more, offset);
    LinesBetween(grown, offset, end, end');
    assert grown[offset..end] == content[offset..end];
    later := SplitLines(grown[end..end']);
  }

  // ----- How a log may change between reads

  /** The offset is still the start of a line, and the lines before it are the same. */
  predicate SameStart(last: Blob, offset: nat, now: Blob)
    requires Boundary(last, offset)
  {
    Boundary(now, offset) && SplitLines(now[..offset]) == SplitLines(last[..offset])
  }

  /** Besides, no complete line that was still unread has gone. */
  ghost predicate Keeps(last: Blob, offset: nat, now: Blob)
    requires Boundary(last, offset)
  {
    SameStart(last, offset, now) && forall line :: line in NewLines(last, offset) ==> line in NewLines(now, offset)
  }

  /** Such a change keeps a reader in step, whatever else it does past the offset. */
  lemma ChangeKeepsTracks(offset: nat, rows: seq<Row>, last: Blob, now: Blob, parse: Blob -> Option<Row>)
    requires Tracks(offset, rows, last, parse) && Keeps(last, offset, now)
    ensures Tracks(offset, rows, now, parse)
  {
    if Stuck(offset, last, parse) {
      var lines, lines' := NewLines(last, offset), NewLines(now, offset);
      var i :| 0 <= i < |lines| && parse(lines[i]).None?;
      assert lines[i] in lines';
    }
  }

  lemma SamePrefix(b: Blob, i: nat, n: nat)
    requires i <= n <= |b|
    ensures b[..n][i..n] == b[i..n]
  {
  }

  lemma CompletePart(b: Blob, offset: nat)
    requires Boundary(b, offset)
    ensures offset <= Complete(b) && Boundary(b[..Complete(b)], offset)
    ensures NewLines(b[..Complete(b)], offset) == NewLines(b, offset)
  {
    var core := b[..Complete(b)];
    CompleteSplits(b, offset);
    assert Boundary(core, offset) && Complete(core) == |core|;
    CompleteSplits(core, offset);
    SamePrefix(b, offset, Complete(b));
  }

  /** Any change that leaves the complete lines in front: appending bytes cut anywhere, and
      also rewriting an unfinished last line. */
  lemma CompleteLinesKeep(last: Blob, offset: nat, now: Blob)
    requires Boundary(last, offset) && last[..Complete(last)] <= now
    ensures Keeps(last, offset, now)
  {
    var core := last[..Complete(last)];
    CompletePart(last, offset);
    assert core + now[|core|..] == now;
    assert now[..offset] == core[..offset] == last[..offset];
    var later := NewLinesGrow(core, now[|core|..], offset);
  }

  lemma AppendKeeps(content: Blob, more: Blob, offset: nat)
    requires Boundary(content, offset)
    ensures Keeps(content, offset, content + more)
  {
    CompleteLinesKeep(content, offset, content + more);
  }

  /** Appending any bytes, cut anywhere, keeps a reader in step. */
  lemma AppendKeepsTracks(offset: nat, rows: seq<Row>, content: Blob, more: Blob, parse: Blob -> Option<Row>)
    requires Tracks(offset, rows, content, parse)
    ensures Tracks(offset, rows, content + more, parse)
  {
    AppendKeeps(content, more, offset);
    ChangeKeepsTracks(offset, rows, content, content + more, parse);
  }

  /** One read: a reader in step either gets exactly the batch parse, or raises as the batch
      parse does, and is in step again. */
  lemma ReadIsBatch(offset: nat, rows: seq<Row>, content: Blob, parse: Blob -> Option<Row>)
    requires Tracks(offset, rows, content, parse)
    ensures var lines := NewLines(content, offset);
            if AllParse(lines, parse) then
              Batch(content, parse) == Some(rows + Rows(lines, parse))
              && CaughtUp(End(content, offset), rows + Rows(lines, parse), content, parse)
            else Batch(content, parse) == None && Stuck(offset, content, parse)
  {
    var done, lines := SplitLines(content[..offset]), NewLines(content, offset);
    CompleteSplits(content, offset);
    RowsConcat(done, lines, parse);
    assert SplitLines(content[..Complete(content)]) == done + lines;
  }

  // ----- Exactly when a read is right

  /** The lines a read from an offset sees; none if the file ends before it. */
  function Fresh(content: Blob, offset: nat): seq<Blob> {
    if offset <= |content| then NewLines(content, offset) else []
  }

  /** What a reader returns when it goes on from an offset. */
  function Resumed(offset: nat, rows: seq<Row>, content: Blob, parse: Blob -> Option<Row>): Option<seq<Row>> {
    var lines := Fresh(content, offset);
    if AllParse(lines, parse) then Some(rows + Rows(lines, parse)) else None
  }

  /** The complete lines of the file now are those read before and those a read will see. */
  ghost predicate Resumes(last: Blob, offset: nat, now: Blob)
    requires offset <= |last|
  {
    SplitLines(now[..Complete(now)]) == SplitLines(last[..offset]) + Fresh(now, offset)
  }

  function Verbatim(line: Blob): Option<Row> {
    Some(Row(None, line))
  }

  lemma {:induction false} VerbatimSeparates(xs: seq<Blob>, ys: seq<Blob>)
    requires Rows(xs, Verbatim) == Rows(ys, Verbatim)
    ensures xs == ys
  {
    if xs != [] && ys != [] {
      var xt, yt := Rows(xs[1..], Verbatim), Rows(ys[1..], Verbatim);
      assert Rows(xs, Verbatim)[0] == Rows(ys, Verbatim)[0];
      assert ([Row(None, xs[0])] + xt)[1..] == xt && ([Row(None, ys[0])] + yt)[1..] == yt;
      VerbatimSeparates(xs[1..], ys[1..]);
      assert xs == [xs[0]] + xs[1..] && ys == [ys[0]] + ys[1..];
    }
  }

  lemma ResumingIsBatch(last: Blob, offset: nat, now: Blob, rows: seq<Row>, parse: Blob -> Option<Row>)
    requires CaughtUp(offset, rows, last, parse) && Resumes(last, offset, now)
    ensures Resumed(offset, rows, now, parse) == Batch(now, parse)
  {
    RowsConcat(SplitLines(last[..offset]), Fresh(now, offset), parse);
  }

  lemma WrongForVerbatim(last: Blob, offset: nat, now: Blob)
    requires Boundary(last, offset)
    requires var rows := Rows(SplitLines(last[..offset]), Verbatim);
             Resumed(offset, rows, now, Verbatim) == Batch(now, Verbatim)
    ensures Resumes(last, offset, now)
  {
    var before, seen := SplitLines(last[..offset]), Fresh(now, offset);
    RowsConcat(before, seen, Verbatim);
    VerbatimSeparates(before + seen, SplitLines(now[..Complete(now)]));
  }

  /** Exactly when going on from the offset is right: a reader that had caught up with the
      file as it was gets the batch parse of the file as it is, whatever the lines mean, if
      and only if the file's complete lines are those read before and those it sees. */
  lemma ResumedExactly(last: Blob, offset: nat, now: Blob)
    requires Boundary(last, offset)
    ensures (forall parse: Blob -> Option<Row>, rows ::
               CaughtUp(offset, rows, last, parse) ==> Resumed(offset, rows, now, parse) == Batch(now, parse))
            <==> Resumes(last, offset, now)
  {
    if Resumes(last, offset, now) {
      forall parse: Blob -> Option<Row>, rows | CaughtUp(offset, rows, last, parse)
        ensures Resumed(offset, rows, now, parse) == Batch(now, parse)
      {
        ResumingIsBatch(last, offset, now, rows, parse);
      }
    } else {
      var rows := Rows(SplitLines(last[..offset]), Verbatim);
      assert CaughtUp(offset, rows, last, Verbatim);
      if Resumed(offset, rows, now, Verbatim) == Batch(now, Verbatim) {
        WrongForVerbatim(last, offset, now);
      }
    }
  }

  /** Where the offset is still the start of a line, that is the same as unchanged lines
      before it. */
  lemma ResumesMeansSameStart(last: Blob, offset: nat, now: Blob)
    requires Boundary(last, offset) && Boundary(now, offset)
    ensures Resumes(last, offset, now) <==> SameStart(last, offset, now)
  {
    CompleteSplits(now, offset);
    var x, y, z := SplitLines(now[..offset]), SplitLines(last[..offset]), NewLines(now, offset);
    assert |x + z| - |z| == |x| && |y + z| - |z| == |y|;
    assert (x + z)[..|x|] == x && (y + z)[..|y|] == y;
  }

  /** A reader that raised has kept the rows before the line that failed and not moved on.
      Where the lines before its offset are unchanged, its next read is the batch parse if and
      only if some line still fails or it had kept none. */
  lemma RaisedReadExactly(offset: nat, rows: seq<Row>, kept: seq<Row>, last: Blob, now: Blob,
                          parse: Blob -> Option<Row>)
    requires CaughtUp(offset, rows, last, parse) && SameStart(last, offset, now)
    ensures Resumed(offset, rows + kept, now, parse) == Batch(now, parse) <==>
            !AllParse(NewLines(now, offset), parse) || kept == []
  {
    ResumesMeansSameStart(last, offset, now);
    ResumingIsBatch(last, offset, now, rows, parse);
    var more := Rows(NewLines(now, offset), parse);
    assert |(rows + kept) + more| == |rows + more| + |kept|;
    assert kept == [] ==> rows + kept == rows;
  }

  /** It kept none exactly if the first line it saw failed. */
  lemma NothingKept(lines: seq<Blob>, parse: Blob -> Option<Row>)
    requires !AllParse(lines, parse)
    ensures Rows(lines, parse) == [] <==> parse(lines[0]).None?
  {
  }

  /** The loop shared by the readers: parse line by line, stopping at an exception with the
      rows already appended. */
  method ParseLines(lines: seq<Blob>, rows: seq<Row>, parse: Blob -> Option<Row>) returns (r: seq<Row>, ok: bool)
    ensures ok <==> AllParse(lines, parse)
    ensures r == rows + Rows(lines, parse)
  {
    r := rows;
    var rest := lines;
    while rest != []
      invariant r + Rows(rest, parse) == rows + Rows(lines, parse)
      invariant AllParse(rest, parse) <==> AllParse(lines, parse)
    {
      var row := parse(rest[0]);
      if row.None? {
        return r, false;
      }
      assert rest == [rest[0]] + rest[1..];
      r := r + [row.value];
      rest := rest[1..];
    }
    return r, true;
  }
}
