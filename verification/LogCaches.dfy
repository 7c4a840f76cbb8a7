/** The three caches that read logs incrementally, and why each returns the batch parse. */
module LogCaches {
  import opened Bytes
  import opened LogReaders
  import opened Seqs

  type Path = string
  type Role = string

  const SAMPLE := Some("native_combat_sample")

  /** A log file as `stat` and `read` see it. */
  datatype FileState = FileState(identity: nat, content: Blob)

  datatype Cached = Cached(identity: nat, offset: nat, rows: seq<Row>)

  // ----- `records`

  /** Whether the cached position is given up: another file, or one shorter than the offset. */
  predicate Restarts(c: Option<Cached>, f: FileState) {
    c.None? || c.value.identity != f.identity || |f.content| < c.value.offset
  }

  /** One call of `records` on an existing file: the cache entry afterwards and the result.
      Rows before a line that raises stay in the cached list, and the offset stays put. */
  function Read(c: Option<Cached>, f: FileState, parse: Blob -> Option<Row>): (Cached, Option<seq<Row>>) {
    var base := if Restarts(c, f) then Cached(f.identity, 0, []) else c.value;
    var lines := NewLines(f.content, base.offset);
    var rows := base.rows + Rows(lines, parse);
    if AllParse(lines, parse) then (Cached(f.identity, End(f.content, base.offset), rows), Some(rows))
    else (base.(rows := rows), None)
  }

  /** The entry is in step with what the file held when it was last read. */
  ghost predicate InStep(c: Option<Cached>, last: FileState, parse: Blob -> Option<Row>) {
    c.None? || (c.value.identity == last.identity && Tracks(c.value.offset, c.value.rows, last.content, parse))
  }

  /** How a log may change between two reads: it is replaced by another file, cut back below
      what was read, or still begins with the lines that were read. */
  ghost predicate Follows(c: Option<Cached>, last: FileState, f: FileState) {
    Restarts(c, f)
    || (Boundary(last.content, c.value.offset) && Keeps(last.content, c.value.offset, f.content))
  }

  /** In particular it may be appended to at any byte, after an unfinished line was rewritten
      or not. */
  lemma GrownLogFollows(c: Option<Cached>, last: FileState, f: FileState, parse: Blob -> Option<Row>)
    requires InStep(c, last, parse) && last.content[..Complete(last.content)] <= f.content
    ensures Follows(c, last, f)
  {
    if !Restarts(c, f) {
      CompleteLinesKeep(last.content, c.value.offset, f.content);
    }
  }

  lemma StartsInStep(content: Blob, parse: Blob -> Option<Row>)
    ensures CaughtUp(0, [], content, parse)
  {
    assert content[..0] == [];
  }

  lemma ReadStaysInStep(c: Option<Cached>, last: FileState, f: FileState, parse: Blob -> Option<Row>)
    requires InStep(c, last, parse) && Follows(c, last, f)
    ensures Read(c, f, parse).1 == Batch(f.content, parse)
    ensures InStep(Some(Read(c, f, parse).0), f, parse)
  {
    if Restarts(c, f) {
      StartsInStep(f.content, parse);
      ReadIsBatch(0, [], f.content, parse);
    } else {
      ChangeKeepsTracks(c.value.offset, c.value.rows, last.content, f.content, parse);
      ReadIsBatch(c.value.offset, c.value.rows, f.content, parse);
    }
  }

  /** Exactly when `records` is right about a file it goes on reading: every reader that had
      caught up gets the batch parse if and only if the complete lines of the file are those
      read before and those past the offset. */
  lemma ReadExactly(identity: nat, last: Blob, offset: nat, now: Blob)
    requires Boundary(last, offset) && offset <= |now|
    ensures (forall parse: Blob -> Option<Row>, rows :: CaughtUp(offset, rows, last, parse) ==>
               Read(Some(Cached(identity, offset, rows)), FileState(identity, now), parse).1 == Batch(now, parse))
            <==> Resumes(last, offset, now)
  {
    ResumedExactly(last, offset, now);
    if !Resumes(last, offset, now) {
      var parse: Blob -> Option<Row>, rows :|
        CaughtUp(offset, rows, last, parse) && Resumed(offset, rows, now, parse) != Batch(now, parse);
    }
  }

  /** Successive states of one log under a reader. */
  ghost predicate Watchable(c: Option<Cached>, last: FileState, files: seq<FileState>, parse: Blob -> Option<Row>)
    decreases |files|
  {
    files == []
    || (Follows(c, last, files[0]) && Watchable(Some(Read(c, files[0], parse).0), files[0], files[1..], parse))
  }

  function ReadAll(c: Option<Cached>, files: seq<FileState>, parse: Blob -> Option<Row>): (r: seq<Option<seq<Row>>>)
    ensures |r| == |files|
    decreases |files|
  {
    if files == [] then []
    else
      var (c', result) := Read(c, files[0], parse);
      [result] + ReadAll(Some(c'), files[1..], parse)
  }

  /** For every interleaving of reads with appends, replacements and truncations, every read
      returns the batch parse of the file as it then is, or raises as that parse would. */
  lemma {:induction false} EveryReadIsBatch(c: Option<Cached>, last: FileState, files: seq<FileState>,
                                            parse: Blob -> Option<Row>, i: nat)
    requires InStep(c, last, parse) && Watchable(c, last, files, parse) && i < |files|
    ensures ReadAll(c, files, parse)[i] == Batch(files[i].content, parse)
    decreases |files|
  {
    ReadStaysInStep(c, last, files[0], parse);
    if i > 0 {
      EveryReadIsBatch(Some(Read(c, files[0], parse).0), files[0], files[1..], parse, i - 1);
    }
  }

  /** A case where it is not: a log cut back and grown past the offset between two reads is
      not noticed, and the reader keeps rows that are no longer there. */
  lemma RegrownLogIsStale()
    ensures var before, after := FileState(0, [65, LF]), FileState(0, [66, LF]);
            var (c, _) := Read(None, before, Verbatim);
            Read(Some(c), after, Verbatim).1 == Some([Row(None, [65])])
            && Batch(after.content, Verbatim) == Some([Row(None, [66])])
  {
    FirstRead(65);
    FirstRead(66);
    NothingNew(Cached(0, 2, [Row(None, [65])]), FileState(0, [66, LF]));
  }

  lemma FirstRead(x: Byte)
    requires x != LF && x != CR
    ensures Read(None, FileState(0, [x, LF]), Verbatim) == (Cached(0, 2, [Row(None, [x])]), Some([Row(None, [x])]))
    ensures Batch([x, LF], Verbatim) == Some([Row(None, [x])])
  {
    var content: Blob := [x, LF];
    OneLine(x);
    OneRow(x);
    assert content[0..2] == content && content[0..] == content && content[..2] == content;
    assert NewLines(content, 0) == [[x]] && End(content, 0) == 2;
    assert [] + [Row(None, [x])] == [Row(None, [x])];
  }

  lemma NothingNew(c: Cached, f: FileState)
    requires c.identity == f.identity && c.offset == |f.content|
    ensures Read(Some(c), f, Verbatim).1 == Some(c.rows)
  {
    assert f.content[c.offset..] == [];
    assert NewLines(f.content, c.offset) == [];
    assert c.rows + [] == c.rows;
  }

  lemma OneRow(x: Byte)
    ensures AllParse([[x]], Verbatim) && Rows([[x]], Verbatim) == [Row(None, [x])]
  {
    var lines: seq<Blob> := [[x]];
    assert lines[1..] == [];
    assert Rows(lines[1..], Verbatim) == [];
  }

  lemma OneLine(x: Byte)
    requires x != LF && x != CR
    ensures Complete([x, LF]) == 2 && SplitLines([x, LF]) == [[x]]
  {
    var b: Blob := [x, LF];
    assert b[1..] == [LF] && b[0..2] == b[..2] == b && b[0..] == b;
    assert [LF][1..] == [];
    assert Lines([LF], [x]) == [[x]];
    assert [] + [x] == [x];
  }

  ghost predicate CacheInStep(cache: map<Path, Cached>, seen: map<Path, FileState>, parse: Blob -> Option<Row>) {
    forall p :: p in cache ==> p in seen && InStep(Some(cache[p]), seen[p], parse)
  }

  /** What `Records` does keeps every entry in step, and its result is the batch parse of the
      file, wherever the file changed in a way that the reader can follow. */
  lemma CacheStaysInStep(cache: map<Path, Cached>, seen: map<Path, FileState>, path: Path, f: FileState,
                         parse: Blob -> Option<Row>)
    requires CacheInStep(cache, seen, parse)
    requires path in cache ==> Follows(Some(cache[path]), seen[path], f)
    ensures var (cached, r) := Read(Entry(cache, path), f, parse);
            CacheInStep(cache[path := cached], seen[path := f], parse) && r == Batch(f.content, parse)
    ensures CacheInStep(cache - {path}, seen, parse)
  {
    ReadStaysInStep(Entry(cache, path), if path in cache then seen[path] else f, f, parse);
  }

  ghost function Entry(cache: map<Path, Cached>, path: Path): Option<Cached> {
    if path in cache then Some(cache[path]) else None
  }

  /** The module-level cache of `records`, one entry per path. */
  class RecordCache {
    var cache: map<Path, Cached>

    constructor ()
      ensures cache == map[]
    {
      cache := map[];
    }

    /** A missing file reads as empty and is forgotten; any other file is read from where the
        path's entry says.  `CacheStaysInStep` says when the result is the batch parse. */
    method Records(path: Path, file: Option<FileState>, parse: Blob -> Option<Row>) returns (r: Option<seq<Row>>)
      modifies this
      ensures file.None? ==> r == Some([]) && cache == old(cache) - {path}
      ensures file.Some? ==> r == Read(Entry(old(cache), path), file.value, parse).1
      ensures file.Some? ==> cache == old(cache)[path := Read(Entry(old(cache), path), file.value, parse).0]
    {
      if file.None? {
        cache := cache - {path};
        return Some([]);
      }
      var cached;
      cached, r := ReadFile(if path in cache then Some(cache[path]) else None, file.value, parse);
      cache := cache[path := cached];
    }

    static method ReadFile(entry: Option<Cached>, f: FileState, parse: Blob -> Option<Row>)
      returns (c: Cached, r: Option<seq<Row>>)
      ensures (c, r) == Read(entry, f, parse)
    {
      if entry.None? || entry.value.identity != f.identity || |f.content| < entry.value.offset {
        c := Cached(f.identity, 0, []);
      } else {
        c := entry.value;
      }
      var data := f.content[c.offset..];
      var end := Complete(data);
      assert data[..end] == f.content[c.offset..End(f.content, c.offset)];
      var rows, ok := ParseLines(SplitLines(data[..end]), c.rows, parse);
      c := c.(rows := rows);
      if ok {
        return c.(offset := c.offset + end), Some(rows);
      }
      return c, None;
    }
  }

  // ----- `Evidence.rows`

  function WithEvent(rows: seq<Row>, event: Option<string>): seq<Row> {
    if rows == [] then []
    else
      var last := rows[|rows| - 1];
      WithEvent(rows[..|rows| - 1], event) + if last.event == event then [last] else []
  }

  lemma {:induction false} WithEventConcat(xs: seq<Row>, ys: seq<Row>, event: Option<string>)
    ensures WithEvent(xs + ys, event) == WithEvent(xs, event) + WithEvent(ys, event)
  {
    if ys == [] {
      assert xs + ys == xs;
    } else {
      WithEventConcat(xs, ys[..|ys| - 1], event);
      assert (xs + ys)[..|xs + ys| - 1] == xs + ys[..|ys| - 1];
    }
  }

  function HasEvent(event: Option<string>): Row -> bool {
    (row: Row) => row.event == event
  }

  function Whole(): Row -> Row {
    (row: Row) => row
  }

  lemma WithEventPicksOneMore(rows: seq<Row>, row: Row, event: Option<string>)
    requires Picked(rows, HasEvent(event), Whole(), WithEvent(rows, event))
    ensures Picked(rows + [row], HasEvent(event), Whole(), WithEvent(rows + [row], event))
  {
    PickedSnoc(rows, row, HasEvent(event), Whole(), WithEvent(rows, event));
    WithEventSnoc(rows, row, event);
  }

  /** The rows of an event are exactly those, each once and in file order. */
  lemma {:induction false} WithEventPicks(rows: seq<Row>, event: Option<string>)
    ensures Picked(rows, HasEvent(event), Whole(), WithEvent(rows, event))
  {
    if rows == [] {
      PickedNone(HasEvent(event), Whole());
    } else {
      var front, last := rows[..|rows| - 1], rows[|rows| - 1];
      assert rows == front + [last];
      WithEventPicks(front, event);
      WithEventPicksOneMore(front, last, event);
    }
  }

  lemma WithEventSnoc(rows: seq<Row>, row: Row, event: Option<string>)
    ensures WithEvent(rows + [row], event) ==
            if row.event == event then WithEvent(rows, event) + [row] else WithEvent(rows, event)
  {
    assert (rows + [row])[..|rows|] == rows;
  }

  type ByEvent = Groups<Option<string>, Row>

  ghost predicate Grouped(groups: ByEvent, rows: seq<Row>) {
    forall e :: Lookup(groups, e) == WithEvent(rows, e)
  }

  /** Where a reader that never restarts stands after a read: the offset moves over the lines
      it saw unless one of them raised, and the rows before that one stay. */
  function Moved(offset: nat, content: Blob, parse: Blob -> Option<Row>): nat {
    if offset <= |content| && AllParse(NewLines(content, offset), parse) then End(content, offset) else offset
  }

  /** The reader of one role's log in `Evidence`: rows are filed by event as they are read. */
  class EventLog {
    var offset: nat
    var events: ByEvent
    ghost var rows: seq<Row>

    ghost predicate Valid()
      reads this
    {
      Grouped(events, rows)
    }

    constructor ()
      ensures Valid() && offset == 0 && rows == []
    {
      offset, events, rows := 0, map[], [];
    }

    /** Whatever happened to the log: a missing file changes nothing, and otherwise the reader
        goes on from its offset, seeing nothing if the file ends before it. */
    method RowsOf(event: Option<string>, content: Option<Blob>, parse: Blob -> Option<Row>)
      returns (r: Option<seq<Row>>)
      requires Valid()
      modifies this
      ensures Valid()
      ensures content.None? ==> rows == old(rows) && offset == old(offset) && r == Some(WithEvent(rows, event))
      ensures content.Some? ==> rows == old(rows) + Rows(Fresh(content.value, old(offset)), parse)
      ensures content.Some? ==> offset == Moved(old(offset), content.value, parse)
      ensures content.Some? ==>
                r == match Resumed(old(offset), old(rows), content.value, parse)
                     case None => None
                     case Some(all) => Some(WithEvent(all, event))
    {
      if content.None? {
        return Some(Lookup(events, event));
      }
      var log, complete, lines := content.value, 0, [];
      if offset <= |log| {
        complete := Complete(log[offset..]);
        assert log[offset..][..complete] == log[offset..End(log, offset)];
        lines := SplitLines(log[offset..][..complete]);
      }
      assert lines == Fresh(log, offset);
      var ok;
      events, ok := FileLines(lines, events, rows, parse);
      rows := rows + Rows(lines, parse);
      offset := if ok then offset + complete else offset;
      return if ok then Some(Lookup(events, event)) else None;
    }

    static method FileLines(lines: seq<Blob>, groups: ByEvent, ghost rows: seq<Row>, parse: Blob -> Option<Row>)
      returns (r: ByEvent, ok: bool)
      requires Grouped(groups, rows)
      ensures ok <==> AllParse(lines, parse)
      ensures Grouped(r, rows + Rows(lines, parse))
    {
      r := groups;
      var rest := lines;
      ghost var done := rows;
      while rest != []
        invariant Grouped(r, done) && done + Rows(rest, parse) == rows + Rows(lines, parse)
        invariant AllParse(rest, parse) <==> AllParse(lines, parse)
      {
        var row := parse(rest[0]);
        if row.None? {
          assert done + [] == done;
          return r, false;
        }
        assert rest == [rest[0]] + rest[1..];
        FileRow(r, done, row.value);
        r := r[row.value.event := Lookup(r, row.value.event) + [row.value]];
        done := done + [row.value];
        rest := rest[1..];
      }
      assert done + [] == done;
      return r, true;
    }
  }

  /** One call while the log keeps the lines that were read: it gives the batch parse, and
      the reader is in step again. */
  lemma ResumedStaysInStep(offset: nat, rows: seq<Row>, last: Blob, now: Blob, parse: Blob -> Option<Row>)
    requires Tracks(offset, rows, last, parse) && Keeps(last, offset, now)
    ensures Resumed(offset, rows, now, parse) == Batch(now, parse)
    ensures Tracks(Moved(offset, now, parse), rows + Rows(Fresh(now, offset), parse), now, parse)
  {
    ChangeKeepsTracks(offset, rows, last, now, parse);
    ReadIsBatch(offset, rows, now, parse);
  }

  /** What the calls of `rows` give over successive contents of the log, before rows are
      picked by event. */
  function ResumedAll(offset: nat, rows: seq<Row>, logs: seq<Blob>, parse: Blob -> Option<Row>):
    (r: seq<Option<seq<Row>>>)
    ensures |r| == |logs|
    decreases |logs|
  {
    if logs == [] then []
    else
      [Resumed(offset, rows, logs[0], parse)]
      + ResumedAll(Moved(offset, logs[0], parse), rows + Rows(Fresh(logs[0], offset), parse), logs[1..], parse)
  }

  /** For every interleaving of calls with appends cut at any byte, each call gives the batch
      parse of the log as it then is, or raises as that parse would. */
  lemma {:induction false} EveryCallIsBatch(offset: nat, rows: seq<Row>, last: Blob, logs: seq<Blob>,
                                            parse: Blob -> Option<Row>, i: nat)
    requires Tracks(offset, rows, last, parse) && i < |logs|
    requires last <= logs[0] && forall k :: 1 <= k < |logs| ==> logs[k - 1] <= logs[k]
    ensures ResumedAll(offset, rows, logs, parse)[i] == Batch(logs[i], parse)
    decreases |logs|
  {
    GrownStaysInStep(offset, rows, last, logs[0], parse);
    if i > 0 {
      var rest := logs[1..];
      assert forall k :: 0 <= k < |rest| ==> rest[k] == logs[k + 1];
      EveryCallIsBatch(Moved(offset, logs[0], parse), rows + Rows(Fresh(logs[0], offset), parse), logs[0],
                       rest, parse, i - 1);
    }
  }

  lemma GrownStaysInStep(offset: nat, rows: seq<Row>, last: Blob, now: Blob, parse: Blob -> Option<Row>)
    requires Tracks(offset, rows, last, parse) && last <= now
    ensures Resumed(offset, rows, now, parse) == Batch(now, parse)
    ensures Tracks(Moved(offset, now, parse), rows + Rows(Fresh(now, offset), parse), now, parse)
  {
    AppendKeeps(last, now[|last|..], offset);
    assert last + now[|last|..] == now;
    ResumedStaysInStep(offset, rows, last, now, parse);
  }

  lemma FileRow(groups: ByEvent, rows: seq<Row>, row: Row)
    requires Grouped(groups, rows)
    ensures Grouped(groups[row.event := Lookup(groups, row.event) + [row]], rows + [row])
  {
    assert (rows + [row])[..|rows|] == rows;
    var grown := groups[row.event := Lookup(groups, row.event) + [row]];
    forall e
      ensures Lookup(grown, e) == WithEvent(rows + [row], e)
    {
      assert Lookup(groups, e) == WithEvent(rows, e);
    }
  }

  // ----- `samples` and `established_samples`

  /** The rows from the first two-player baseline on. */
  function Established(rows: seq<Row>, baseline: Row -> bool): seq<Row> {
    if rows == [] || baseline(rows[0]) then rows else Established(rows[1..], baseline)
  }

  /** Where a baseline row first stands; the end if there is none. */
  ghost predicate FirstBaseline(rows: seq<Row>, baseline: Row -> bool, i: nat) {
    && i <= |rows|
    && (forall j :: 0 <= j < i ==> !baseline(rows[j]))
    && (i < |rows| ==> baseline(rows[i]))
  }

  lemma {:induction false} EstablishedFromBaseline(rows: seq<Row>, baseline: Row -> bool) returns (i: nat)
    ensures FirstBaseline(rows, baseline, i) && Established(rows, baseline) == rows[i..]
  {
    if rows == [] || baseline(rows[0]) {
      i := 0;
    } else {
      i := EstablishedFromBaseline(rows[1..], baseline);
      i := i + 1;
    }
  }

  /** Later rows only extend what was established, so a length taken earlier stays a valid
      cut: the established rows past it are exactly the established part of the new ones. */
  lemma {:induction false} EstablishedGrows(rows: seq<Row>, more: seq<Row>, baseline: Row -> bool)
    ensures var before, after := Established(rows, baseline), Established(rows + more, baseline);
            before <= after
            && after[|before|..] == if before == [] then Established(more, baseline) else more
  {
    if rows == [] {
      assert rows + more == more;
    } else if baseline(rows[0]) {
      assert (rows + more)[|rows|..] == more;
    } else {
      EstablishedGrows(rows[1..], more, baseline);
      assert (rows + more)[1..] == rows[1..] + more;
    }
  }

  /** The cached samples are those of the lines before the offset, or the log is stuck. */
  ghost predicate SamplesInStep(c: Option<Cached>, last: FileState, parse: Blob -> Option<Row>) {
    c.None?
    || (c.value.identity == last.identity
        && exists all :: Tracks(c.value.offset, all, last.content, parse) && c.value.rows == WithEvent(all, SAMPLE))
  }

  /** One call of `samples` on an existing file: the cache entry afterwards and the samples.
      An exception during a restart keeps the old entry; otherwise the samples before the
      line that raised stay in the cached list and the offset stays put. */
  function SampleRead(c: Option<Cached>, f: FileState, parse: Blob -> Option<Row>): (Option<Cached>, Option<seq<Row>>) {
    var base := if Restarts(c, f) then Cached(f.identity, 0, []) else c.value;
    var lines := NewLines(f.content, base.offset);
    var rows := base.rows + WithEvent(Rows(lines, parse), SAMPLE);
    if AllParse(lines, parse) then (Some(Cached(f.identity, End(f.content, base.offset), rows)), Some(rows))
    else (if Restarts(c, f) then c else Some(base.(rows := rows)), None)
  }

  /** The samples of a read from the first baseline row on. */
  ghost predicate FromBaseline(c: Option<Cached>, f: FileState, parse: Blob -> Option<Row>, baseline: Row -> bool,
                               i: nat, r: seq<Row>) {
    var read := SampleRead(c, f, parse).1;
    read.Some? && FirstBaseline(read.value, baseline, i) && r == read.value[i..]
  }

  /** The file state the cache is in step with after a call. */
  function LastSeen(c: Option<Cached>, last: FileState, f: FileState, parse: Blob -> Option<Row>): FileState {
    if SampleRead(c, f, parse).1.None? && Restarts(c, f) then last else f
  }

  /** While the file changes in a way the reader can follow, a call gives the samples of the
      batch parse, and the cache is in step again. */
  lemma SamplesStayInStep(c: Option<Cached>, last: FileState, f: FileState, parse: Blob -> Option<Row>)
    requires SamplesInStep(c, last, parse) && Follows(c, last, f)
    ensures SampleRead(c, f, parse).1 == match Batch(f.content, parse)
                                         case None => None
                                         case Some(all) => Some(WithEvent(all, SAMPLE))
    ensures SamplesInStep(SampleRead(c, f, parse).0, LastSeen(c, last, f, parse), parse)
  {
    var all := SampleBasis(c, last, f, parse);
    var base := if Restarts(c, f) then Cached(f.identity, 0, []) else c.value;
    var more := Rows(NewLines(f.content, base.offset), parse);
    ReadIsBatch(base.offset, all, f.content, parse);
    WithEventConcat(all, more, SAMPLE);
    assert Tracks(Moved(base.offset, f.content, parse), all + more, f.content, parse);
  }

  /** What `Samples` hands out while the file changes in a way the reader can follow: exactly
      the samples of the batch parse from the first baseline row on, and nothing while there is
      none. */
  lemma SamplesFromBaseline(c: Option<Cached>, last: FileState, f: FileState, parse: Blob -> Option<Row>,
                            baseline: Row -> bool, i: nat, r: seq<Row>)
    requires SamplesInStep(c, last, parse) && Follows(c, last, f) && FromBaseline(c, f, parse, baseline, i, r)
    ensures Batch(f.content, parse).Some?
    ensures var samples := WithEvent(Batch(f.content, parse).value, SAMPLE);
            && i <= |samples| && r == samples[i..]
            && (forall j :: 0 <= j < i ==> !baseline(samples[j]))
            && (r != [] ==> baseline(r[0]))
            && ((forall j :: 0 <= j < |samples| ==> !baseline(samples[j])) ==> r == [])
  {
    SamplesStayInStep(c, last, f, parse);
  }

  /** The sample reader of one role in the knockout encounter. */
  class SampleCache {
    var cached: Option<Cached>

    constructor ()
      ensures cached == None
    {
      cached := None;
    }

    /** `samples`: the established part of the samples.  A missing file reads as empty and
        leaves the cache alone. */
    method Samples(file: Option<FileState>, parse: Blob -> Option<Row>, baseline: Row -> bool)
      returns (r: Option<seq<Row>>)
      modifies this
      ensures file.None? ==> r == Some([]) && cached == old(cached)
      ensures file.Some? ==> cached == SampleRead(old(cached), file.value, parse).0
      ensures file.Some? ==> r == match SampleRead(old(cached), file.value, parse).1
                                  case None => None
                                  case Some(rows) => Some(Established(rows, baseline))
      ensures file.Some? && r.Some? ==> exists i :: FromBaseline(old(cached), file.value, parse, baseline, i, r.value)
    {
      if file.Some? && SampleRead(cached, file.value, parse).1.Some? {
        var i := EstablishedFromBaseline(SampleRead(cached, file.value, parse).1.value, baseline);
        assert FromBaseline(cached, file.value, parse, baseline, i,
                            Established(SampleRead(cached, file.value, parse).1.value, baseline));
      }
      if file.None? {
        return Some([]);
      }
      var f := file.value;
      var restarts := cached.None? || cached.value.identity != f.identity || |f.content| < cached.value.offset;
      var offset, rows := 0, [];
      if !restarts {
        offset, rows := cached.value.offset, cached.value.rows;
      }
      var complete := Complete(f.content[offset..]);
      assert f.content[offset..][..complete] == f.content[offset..End(f.content, offset)];
      var ok;
      rows, ok := KeepSamples(SplitLines(f.content[offset..][..complete]), rows, parse);
      if ok {
        cached := Some(Cached(f.identity, offset + complete, rows));
      } else if !restarts {
        cached := Some(cached.value.(rows := rows));
      }
      return if ok then Some(Established(rows, baseline)) else None;
    }

    /** The line loop: samples are appended, other events skipped, and a line that does not
        parse ends it. */
    static method KeepSamples(lines: seq<Blob>, rows: seq<Row>, parse: Blob -> Option<Row>)
      returns (r: seq<Row>, ok: bool)
      ensures ok <==> AllParse(lines, parse)
      ensures r == rows + WithEvent(Rows(lines, parse), SAMPLE)
    {
      r := rows;
      var rest := lines;
      ghost var done: seq<Row> := [];
      assert [] + Rows(lines, parse) == Rows(lines, parse);
      while rest != []
        invariant r == rows + WithEvent(done, SAMPLE) && done + Rows(rest, parse) == Rows(lines, parse)
        invariant AllParse(rest, parse) <==> AllParse(lines, parse)
      {
        var row := parse(rest[0]);
        if row.None? {
          assert done + [] == done;
          return r, false;
        }
        assert rest == [rest[0]] + rest[1..];
        WithEventSnoc(done, row.value, SAMPLE);
        Regroup(done, [row.value], Rows(rest[1..], parse));
        if row.value.event == SAMPLE {
          Regroup(rows, WithEvent(done, SAMPLE), [row.value]);
          r := r + [row.value];
        }
        done := done + [row.value];
        rest := rest[1..];
      }
      assert done + [] == done;
      return r, true;
    }
  }

  /** All rows behind the samples a read starts from. */
  lemma SampleBasis(c: Option<Cached>, last: FileState, f: FileState, parse: Blob -> Option<Row>)
    returns (all: seq<Row>)
    requires SamplesInStep(c, last, parse) && Follows(c, last, f)
    ensures if Restarts(c, f) then all == [] && Tracks(0, all, f.content, parse)
            else Tracks(c.value.offset, all, f.content, parse) && c.value.rows == WithEvent(all, SAMPLE)
  {
    if Restarts(c, f) {
      all := [];
      StartsInStep(f.content, parse);
    } else {
      all :| Tracks(c.value.offset, all, last.content, parse) && c.value.rows == WithEvent(all, SAMPLE);
      ChangeKeepsTracks(c.value.offset, all, last.content, f.content, parse);
    }
  }
}
