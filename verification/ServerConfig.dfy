/**
 The server configuration of a pack: key=value lines, parsed by `_assignments` and rewritten
 line by line by `_render_server_config`.
 */
module ServerConfig {
  import opened Bytes
  import opened Seqs
  import opened Text

  const MANIFEST_KEY := "content_manifest_id"
  const PASSWORD_KEY := "join_password_file"
  const IDENTITY_KEY := "player_identity_file"
  const PASSWORD_PATH := "../../join-password.txt"
  const IDENTITY_PATH := "../../players.txt"

  datatype Assignment = Assignment(key: string, value: string)

  datatype Parsed = Skipped | Bad | Assigned(assignment: Assignment)

  // ----- Parsing

  /** The part before the first `=`, or the whole string. */
  function Before(s: string): (r: string)
    ensures r <= s
    ensures |r| < |s| ==> s[|r|] == '='
    ensures forall i :: 0 <= i < |r| ==> r[i] != '='
  {
    if s == "" || s[0] == '=' then "" else [s[0]] + Before(s[1..])
  }

  predicate HasEquals(s: string) {
    |Before(s)| < |s|
  }

  function After(s: string): string
    requires HasEquals(s)
  {
    s[|Before(s)| + 1..]
  }

  /** `_unquote`. */
  function Unquote(value: string): string {
    var v := Strip(value);
    if |v| >= 2 && v[0] == '"' && v[|v| - 1] == '"' then v[1..|v| - 1] else v
  }

  /** One pair of quotes around the value goes; a value without is only stripped. */
  lemma UnquoteMeans(value: string)
    ensures Unquote("\"" + value + "\"") == value
    ensures !(|Strip(value)| >= 2 && Strip(value)[0] == '"' && Strip(value)[|Strip(value)| - 1] == '"') ==>
              Unquote(value) == Strip(value)
  {
    var quoted := "\"" + value + "\"";
    assert quoted[0] == '"' && quoted[|quoted| - 1] == '"';
    assert !IsSpace('"');
    TrimmedStays(quoted);
    assert quoted[1..|quoted| - 1] == value;
  }

  /** One stripped line of `_assignments`. */
  function ParseStripped(line: string): Parsed {
    if line == "" || line[0] == '#' then Skipped
    else if !HasEquals(line) then Bad
    else
      var key, value := Strip(Before(line)), Unquote(After(line));
      if key == "" || value == "" then Bad else Assigned(Assignment(key, value))
  }

  function ParseLine(raw: string): Parsed {
    ParseStripped(Strip(raw))
  }

  predicate LineOk(raw: string) {
    !ParseLine(raw).Bad?
  }

  function AssignmentsOf(raw: string): seq<Assignment> {
    if ParseLine(raw).Assigned? then [ParseLine(raw).assignment] else []
  }

  /** Blank lines and comments assign nothing. */
  lemma CommentAssignsNothing(raw: string)
    requires Strip(raw) == "" || Strip(raw)[0] == '#'
    ensures LineOk(raw) && AssignmentsOf(raw) == []
  {
  }

  /** Any other line assigns what follows its first `=` to what stands before, or is refused. */
  lemma LineAssigns(raw: string, key: string, value: string)
    requires Strip(raw) == key + "=" + value && forall i :: 0 <= i < |key| ==> key[i] != '='
    requires Strip(raw)[0] != '#'
    ensures LineOk(raw) <==> Strip(key) != "" && Unquote(value) != ""
    ensures LineOk(raw) ==> AssignmentsOf(raw) == [Assignment(Strip(key), Unquote(value))]
  {
    var line := key + "=" + value;
    assert line[|key|] == '=' && line[..|key|] == key && line[|key| + 1..] == value;
    BeforeUnique(line, |key|);
  }

  /** `_assignments` on the lines of a text: an exception, or the assignments in order. */
  function Assignments(lines: seq<string>): Option<seq<Assignment>> {
    if AllOf(LineOk, lines) then Some(FlatMap(AssignmentsOf, lines)) else None
  }

  /** The loop of `_assignments`. */
  method ParseAssignments(lines: seq<string>) returns (r: Option<seq<Assignment>>)
    ensures r == Assignments(lines)
  {
    var result := [];
    for i := 0 to |lines|
      invariant AllOf(LineOk, lines[..i])
      invariant result == FlatMap(AssignmentsOf, lines[..i])
    {
      FlatMapSnoc(AssignmentsOf, lines, i);
      AllOfSnoc(LineOk, lines, i);
      var ok, found := ReadLine(lines[i]);
      if !ok {
        return None;
      }
      result := result + found;
    }
    assert lines[..|lines|] == lines;
    return Some(result);
  }

  method ReadLine(raw: string) returns (ok: bool, found: seq<Assignment>)
    ensures ok == LineOk(raw)
    ensures ok ==> found == AssignmentsOf(raw)
  {
    var line := Strip(raw);
    if line == "" || line[0] == '#' {
      return true, [];
    }
    if !HasEquals(line) {
      return false, [];
    }
    var key, value := Strip(Before(line)), Unquote(After(line));
    if key == "" || value == "" {
      return false, [];
    }
    return true, [Assignment(key, value)];
  }

  // ----- Rendering

  /** What a bake puts in place of a key's value, if anything. */
  function Override(key: string, names: map<string, string>, manifest: string): Option<string> {
    if key == MANIFEST_KEY then Some(manifest)
    else if key in names then Some(names[key])
    else if key == PASSWORD_KEY then Some(PASSWORD_PATH)
    else if key == IDENTITY_KEY then Some(IDENTITY_PATH)
    else None
  }

  function Line(key: string, value: string): string {
    key + " = " + value
  }

  /** The key of an unstripped line; None for blank lines, comments and lines without `=`. */
  function KeyOf(raw: string): Option<string> {
    var stripped := Strip(raw);
    if stripped == "" || stripped[0] == '#' || !HasEquals(raw) then None else Some(Strip(Before(raw)))
  }

  function RenderLine(raw: string, names: map<string, string>, manifest: string): string {
    var key := KeyOf(raw);
    if key.Some? && Override(key.value, names, manifest).Some?
    then Line(key.value, Override(key.value, names, manifest).value)
    else RStrip(raw)
  }

  function RenderLines(lines: seq<string>, names: map<string, string>, manifest: string): (r: seq<string>)
    ensures |r| == |lines| && forall i :: 0 <= i < |lines| ==> r[i] == RenderLine(lines[i], names, manifest)
  {
    seq(|lines|, i requires 0 <= i < |lines| => RenderLine(lines[i], names, manifest))
  }

  // ----- Stripping and splitting commute

  lemma {:induction false} StripSpace(c: char, s: string)
    requires IsSpace(c)
    ensures Strip([c] + s) == Strip(s)
    decreases |s|
  {
    var t := [c] + s;
    if s == "" {
      assert t[..0] == "";
      assert RStrip(t) == RStrip("") == "";
    } else if IsSpace(s[|s| - 1]) {
      assert t[..|t| - 1] == [c] + s[..|s| - 1];
      StripSpace(c, s[..|s| - 1]);
    } else {
      assert RStrip(t) == t && RStrip(s) == s && t[1..] == s;
    }
  }

  lemma BeforeUnique(s: string, n: nat)
    requires n < |s| && s[n] == '=' && forall i :: 0 <= i < n ==> s[i] != '='
    ensures Before(s) == s[..n]
  {
  }

  lemma RStripEquals(s: string)
    ensures HasEquals(RStrip(s)) <==> HasEquals(s)
    ensures Before(RStrip(s)) == if HasEquals(s) then Before(s) else RStrip(s)
  {
    var r := RStrip(s);
    RStripFacts(s);
    if HasEquals(s) {
      var n := |Before(s)|;
      assert !IsSpace(s[n]);
      assert n < |r|;
      BeforeUnique(r, n);
    } else {
      assert Before(s) == s;
    }
  }

  lemma {:induction false} LStripEquals(s: string)
    ensures HasEquals(LStrip(s)) <==> HasEquals(s)
    ensures Strip(Before(LStrip(s))) == Strip(Before(s))
  {
    if s != "" && IsSpace(s[0]) {
      LStripEquals(s[1..]);
      StripSpace(s[0], Before(s[1..]));
    }
  }

  /** The renderer and the parser find the same key in a line. */
  lemma SameKey(raw: string)
    requires ParseLine(raw).Assigned?
    ensures KeyOf(raw) == Some(ParseLine(raw).assignment.key)
  {
    RStripEquals(raw);
    LStripEquals(RStrip(raw));
  }

  // ----- Reading a rendered line

  /** A key as the parser returns it. */
  predicate KeyShape(key: string) {
    && key != "" && Trimmed(key) && key[0] != '#' && NoBreaks(key)
    && forall i :: 0 <= i < |key| ==> key[i] != '='
  }

  /** A value that the parser returns as it is written. */
  predicate ValueShape(value: string) {
    value != "" && NoBreaks(value) && Unquote(value) == value
  }

  lemma ParsedKeyShape(raw: string)
    requires NoBreaks(raw) && ParseLine(raw).Assigned?
    ensures KeyShape(ParseLine(raw).assignment.key)
  {
    var line := Strip(raw);
    var before := Before(line);
    var key := Strip(before);
    StripFacts(raw);
    StripFacts(before);
    RStripFacts(before);
    assert before != "" && before[0] == line[0];
    assert key[0] == before[0] by {
      assert LStrip(RStrip(before)) == RStrip(before);
    }
    forall i | 0 <= i < |key|
      ensures key[i] != '=' && !IsBreak(key[i])
    {
      assert key[i] in before;
      var j :| 0 <= j < |before| && before[j] == key[i];
      assert line[j] in line;
    }
  }

  lemma {:induction false} TrailingSpace(s: string)
    requires s != "" && Trimmed(s)
    ensures Strip(s + " ") == s
  {
    var t := s + " ";
    assert t[..|t| - 1] == s;
    TrimmedStays(s);
    assert IsSpace(' ');
  }

  lemma RenderedStripped(key: string, value: string)
    requires KeyShape(key)
    ensures Strip(Line(key, value)) == key + " =" + RStrip(" " + value)
  {
    var head, tail := key + " =", " " + value;
    assert Line(key, value) == head + tail;
    assert Trimmed(head);
    RStripTail(head, tail);
  }

  lemma ParseRendered(key: string, t: string)
    requires KeyShape(key)
    ensures ParseStripped(key + " =" + t) ==
            if Unquote(t) != "" then Assigned(Assignment(key, Unquote(t))) else Bad
  {
    var line, head := key + " =" + t, key + " ";
    assert line[|head|] == '=' && line[..|head|] == head;
    assert forall i :: 0 <= i < |head| ==> line[i] != '=';
    BeforeUnique(line, |head|);
    TrailingSpace(key);
    assert line[|head| + 1..] == t;
  }

  /** A rendered line reads back as its key and its unquoted value, and as nothing if that
      is empty. */
  lemma RenderedLineReads(key: string, value: string)
    requires KeyShape(key)
    ensures ParseLine(Line(key, value)) ==
            if Unquote(value) != "" then Assigned(Assignment(key, Unquote(value))) else Bad
  {
    RenderedStripped(key, value);
    ParseRendered(key, RStrip(" " + value));
    RStripTwice(" " + value);
    StripSpace(' ', value);
    assert [' '] + value == " " + value;
  }

  /** Stripping does not reach past a trimmed beginning. */
  lemma StripHead(raw: string, head: string)
    requires head != "" && Trimmed(head) && head <= raw
    ensures Strip(raw) == RStrip(raw) && head <= RStrip(raw)
  {
    RStripFacts(raw);
    assert !IsSpace(raw[|head| - 1]);
    assert RStrip(raw)[..|head|] == raw[..|head|] == head;
  }

  lemma {:induction false} RStripTail(head: string, tail: string)
    requires head != "" && Trimmed(head)
    ensures RStrip(head + tail) == head + RStrip(tail)
    decreases |tail|
  {
    var s := head + tail;
    if tail == "" {
      assert s == head;
      TrimmedStays(head);
      assert head + RStrip("") == head;
    } else if IsSpace(tail[|tail| - 1]) {
      assert s[..|s| - 1] == head + tail[..|tail| - 1];
      RStripTail(head, tail[..|tail| - 1]);
    }
  }
}
