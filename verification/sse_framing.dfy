/** The line-by-line event-stream reader of the openfeature stream client.

    It follows the text/event-stream format of the WHATWG HTML Living
    Standard, section 9.2.6 ("Interpreting an event stream"), with three
    deviations the client makes and this model keeps:
    - every field value is trimmed at both ends (not only one leading space);
    - `data:` lines are concatenated with no line feed between them;
    - every blank line dispatches, even when no field was seen.

    Lines arrive already split (`BufferedReader.readLine`), so no line holds
    a line terminator.
 */
module SseFraming {
  import opened Wrappers
  import Text

  /** A dispatched event: type and id are `null` unless a line set them. */
  datatype Frame = Frame(eventType: Option<string>, id: Option<string>, data: string)

  /** The three locals of `parseEventStream`. */
  datatype Parser = Parser(eventType: Option<string>, id: Option<string>, data: string)

  const Fresh: Parser := Parser(None, None, "")

  datatype Fed = Fed(parser: Parser, frame: Option<Frame>)

  /** One line: a blank line dispatches and resets; `data:` appends the
      trimmed remainder; `event:` and `id:` overwrite with the trimmed
      remainder; anything else (a `:` comment, `retry:`, an unknown field)
      is ignored. The prefixes are tested in that order. */
  function Feed(p: Parser, line: string): (r: Fed)
    ensures (r.frame.Some?) <==> |line| == 0
  {
    if |line| == 0 then Fed(Fresh, Some(Frame(p.eventType, p.id, Text.Trim(p.data))))
    else if Text.StartsWith(line, "data:") then Fed(p.(data := p.data + Text.Trim(line[5..])), None)
    else if Text.StartsWith(line, "event:") then Fed(p.(eventType := Some(Text.Trim(line[6..]))), None)
    else if Text.StartsWith(line, "id:") then Fed(p.(id := Some(Text.Trim(line[3..]))), None)
    else Fed(p, None)
  }

  /** A line starts with at most one of the three field names (their first
      chars differ), and a blank line with none. */
  lemma FieldPrefixesExclusive(line: string)
    ensures Text.StartsWith(line, "data:") ==> line[0] == 'd'
    ensures Text.StartsWith(line, "event:") ==> line[0] == 'e'
    ensures Text.StartsWith(line, "id:") ==> line[0] == 'i'
  {
    if Text.StartsWith(line, "data:") { assert line[..5][0] == line[0]; }
    if Text.StartsWith(line, "event:") { assert line[..6][0] == line[0]; }
    if Text.StartsWith(line, "id:") { assert line[..3][0] == line[0]; }
  }

  /** What one line does, clause by clause: a blank line dispatches the
      collected fields with the data trimmed and starts afresh; a field line
      updates exactly its own field; any other line changes nothing. */
  lemma FeedSpec(p: Parser, line: string)
    ensures |line| == 0 ==>
      Feed(p, line) == Fed(Fresh, Some(Frame(p.eventType, p.id, Text.Trim(p.data))))
    ensures Text.StartsWith(line, "data:") ==>
      Feed(p, line) == Fed(p.(data := p.data + Text.Trim(line[5..])), None)
    ensures Text.StartsWith(line, "event:") ==>
      Feed(p, line) == Fed(p.(eventType := Some(Text.Trim(line[6..]))), None)
    ensures Text.StartsWith(line, "id:") ==>
      Feed(p, line) == Fed(p.(id := Some(Text.Trim(line[3..]))), None)
    ensures (|line| > 0 && !Text.StartsWith(line, "data:") && !Text.StartsWith(line, "event:")
             && !Text.StartsWith(line, "id:")) ==> Feed(p, line) == Fed(p, None)
  {
    FieldPrefixesExclusive(line);
  }

  datatype Parsed = Parsed(parser: Parser, frames: seq<Frame>)

  /** `parseEventStream` over the lines read before the stream ends. */
  function ParseLines(p: Parser, lines: seq<string>): (r: Parsed)
    ensures |lines| == 0 ==> r == Parsed(p, [])
    ensures |r.frames| <= |lines|
  {
    Run(Feed, p, lines)
  }

  /** Folds a line handler over the lines, collecting what it dispatches. */
  function Run(step: (Parser, string) -> Fed, p: Parser, lines: seq<string>): (r: Parsed)
    ensures |r.frames| <= |lines|
    decreases |lines|
  {
    if |lines| == 0 then Parsed(p, [])
    else
      var f := step(p, lines[0]);
      var rest := Run(step, f.parser, lines[1..]);
      Parsed(rest.parser, (if f.frame.Some? then [f.frame.value] else []) + rest.frames)
  }

  function CountBlank(lines: seq<string>): nat {
    if |lines| == 0 then 0 else (if |lines[0]| == 0 then 1 else 0) + CountBlank(lines[1..])
  }

  /** Exactly one event per blank line, including the ones with no fields. */
  lemma {:induction false} OneFramePerBlankLine(p: Parser, lines: seq<string>)
    ensures |ParseLines(p, lines).frames| == CountBlank(lines)
    decreases |lines|
  {
    if |lines| > 0 {
      OneFramePerBlankLine(Feed(p, lines[0]).parser, lines[1..]);
    }
  }

  lemma {:induction false} RunAppend(step: (Parser, string) -> Fed, p: Parser, a: seq<string>, b: seq<string>)
    ensures Run(step, p, a + b)
         == Parsed(Run(step, Run(step, p, a).parser, b).parser,
                   Run(step, p, a).frames + Run(step, Run(step, p, a).parser, b).frames)
    decreases |a|
  {
    if |a| == 0 {
      assert a + b == b;
    } else {
      assert (a + b)[0] == a[0];
      assert (a + b)[1..] == a[1..] + b;
      RunAppend(step, step(p, a[0]).parser, a[1..], b);
    }
  }

  /** Reading two chunks one after the other is reading their concatenation. */
  lemma ParseAppend(p: Parser, a: seq<string>, b: seq<string>)
    ensures ParseLines(p, a + b)
         == Parsed(ParseLines(ParseLines(p, a).parser, b).parser,
                   ParseLines(p, a).frames + ParseLines(ParseLines(p, a).parser, b).frames)
  {
    RunAppend(Feed, p, a, b);
  }

  /** A stream cut off before its blank line dispatches nothing: the
      pending fields are lost when the reader returns. */
  lemma {:induction false} UnterminatedFrameIsDropped(p: Parser, lines: seq<string>)
    requires forall i :: 0 <= i < |lines| ==> |lines[i]| > 0
    ensures ParseLines(p, lines).frames == []
    decreases |lines|
  {
    if |lines| > 0 {
      assert |lines[0]| > 0;
      assert forall i :: 0 <= i < |lines[1..]| ==> lines[1..][i] == lines[i + 1];
      UnterminatedFrameIsDropped(Feed(p, lines[0]).parser, lines[1..]);
    }
  }

  // ---------------------------------------------------------------------
  // Writing events the way the server does
  // ---------------------------------------------------------------------

  /** A field value survives the client's trimming. */
  predicate Representable(f: Frame) {
    && Text.IsTrimmed(f.data)
    && (f.eventType.Some? ==> Text.IsTrimmed(f.eventType.value))
    && (f.id.Some? ==> Text.IsTrimmed(f.id.value))
  }

  /** The server side: optional `id:` and `event:` lines, one `data:` line,
      then the blank line. */
  function Serialize(f: Frame): (lines: seq<string>)
    ensures |lines| > 0 && lines[|lines| - 1] == ""
    ensures forall i :: 0 <= i < |lines| - 1 ==> |lines[i]| > 0
  {
    (if f.id.Some? then ["id:" + f.id.value] else [])
      + (if f.eventType.Some? then ["event:" + f.eventType.value] else [])
      + ["data:" + f.data, ""]
  }

  lemma TrimTrimmed(s: string)
    requires Text.IsTrimmed(s)
    ensures Text.Trim(s) == s
  {
    Text.TrimIdentity(s);
  }

  lemma FeedId(p: Parser, v: string)
    requires Text.IsTrimmed(v)
    ensures Feed(p, "id:" + v) == Fed(p.(id := Some(v)), None)
  {
    var l := "id:" + v;
    assert l[..3] == "id:" && l[3..] == v;
    FieldPrefixesExclusive(l);
    TrimTrimmed(v);
  }

  lemma FeedEvent(p: Parser, v: string)
    requires Text.IsTrimmed(v)
    ensures Feed(p, "event:" + v) == Fed(p.(eventType := Some(v)), None)
  {
    var l := "event:" + v;
    assert l[..6] == "event:" && l[6..] == v;
    FieldPrefixesExclusive(l);
    TrimTrimmed(v);
  }

  lemma FeedData(p: Parser, v: string)
    requires Text.IsTrimmed(v)
    ensures Feed(p, "data:" + v) == Fed(p.(data := p.data + v), None)
  {
    var l := "data:" + v;
    assert l[..5] == "data:" && l[5..] == v;
    TrimTrimmed(v);
  }

  /** A field line on its own dispatches nothing. */
  lemma ParseFieldLine(p: Parser, l: string)
    requires |l| > 0
    ensures ParseLines(p, [l]) == Parsed(Feed(p, l).parser, [])
  {
    var lines: seq<string> := [l];
    assert lines[0] == l && lines[1..] == [];
    var f := Feed(p, l);
    assert f.frame.None?;
    assert Run(Feed, f.parser, []) == Parsed(f.parser, []);
  }

  lemma ParseBlankLine(p: Parser)
    ensures ParseLines(p, [""]) == Parsed(Fresh, [Frame(p.eventType, p.id, Text.Trim(p.data))])
  {
    var lines: seq<string> := [""];
    assert lines[0] == "" && lines[1..] == [];
    var f := Feed(p, "");
    assert f == Fed(Fresh, Some(Frame(p.eventType, p.id, Text.Trim(p.data))));
    assert Run(Feed, f.parser, []) == Parsed(Fresh, []);
  }

  /** Reading what the server wrote gives the event back, and the reader
      is fresh again. */
  lemma SerializeRoundTrip(f: Frame)
    requires Representable(f)
    ensures ParseLines(Fresh, Serialize(f)) == Parsed(Fresh, [f])
  {
    var p0 := Fresh;
    var p1 := if f.id.Some? then p0.(id := f.id) else p0;
    var p2 := if f.eventType.Some? then p1.(eventType := f.eventType) else p1;
    var p3 := p2.(data := f.data);
    var idLines: seq<string> := if f.id.Some? then ["id:" + f.id.value] else [];
    var typeLines: seq<string> := if f.eventType.Some? then ["event:" + f.eventType.value] else [];
    var d := "data:" + f.data;
    assert Serialize(f) == idLines + (typeLines + ([d] + [""]));
    assert ParseLines(p0, idLines) == Parsed(p1, []) by {
      if f.id.Some? {
        FeedId(p0, f.id.value);
        ParseFieldLine(p0, "id:" + f.id.value);
      }
    }
    assert ParseLines(p1, typeLines) == Parsed(p2, []) by {
      if f.eventType.Some? {
        FeedEvent(p1, f.eventType.value);
        ParseFieldLine(p1, "event:" + f.eventType.value);
      }
    }
    assert ParseLines(p2, [d]) == Parsed(p3, []) by {
      FeedData(p2, f.data);
      assert "" + f.data == f.data;
      ParseFieldLine(p2, d);
    }
    assert ParseLines(p3, [""]) == Parsed(Fresh, [f]) by {
      ParseBlankLine(p3);
      TrimTrimmed(f.data);
    }
    SilentPrefix(p2, p3, [d], [""]);
    SilentPrefix(p1, p2, typeLines, [d] + [""]);
    SilentPrefix(p0, p1, idLines, typeLines + ([d] + [""]));
  }

  /** Lines that dispatch nothing only hand their parser state on. */
  lemma SilentPrefix(p: Parser, q: Parser, a: seq<string>, b: seq<string>)
    requires ParseLines(p, a) == Parsed(q, [])
    ensures ParseLines(p, a + b) == ParseLines(q, b)
  {
    ParseAppend(p, a, b);
    assert [] + ParseLines(q, b).frames == ParseLines(q, b).frames;
  }

  lemma ConcatTrimmed(a: string, b: string)
    requires |a| > 0 && |b| > 0 && Text.IsTrimmed(a) && Text.IsTrimmed(b)
    ensures Text.IsTrimmed(a + b)
  {
    assert (a + b)[0] == a[0];
    assert (a + b)[|a + b| - 1] == b[|b| - 1];
  }

  /** Unlike the standard, two `data:` lines join with nothing between them. */
  lemma DataLinesConcatenate(a: string, b: string)
    requires |a| > 0 && |b| > 0 && Text.IsTrimmed(a) && Text.IsTrimmed(b)
    ensures ParseLines(Fresh, ["data:" + a] + (["data:" + b] + [""])) == Parsed(Fresh, [Frame(None, None, a + b)])
  {
    var la := "data:" + a;
    var lb := "data:" + b;
    var p1 := Fresh.(data := a);
    var p2 := p1.(data := a + b);
    DataLine(Fresh, a);
    assert Fresh.(data := Fresh.data + a) == p1;
    DataLine(p1, b);
    assert ParseLines(p2, [""]) == Parsed(Fresh, [Frame(None, None, a + b)]) by {
      ParseBlankLine(p2);
      ConcatTrimmed(a, b);
      TrimTrimmed(a + b);
    }
    SilentPair(Fresh, p1, p2, la, lb, [""]);
  }

  /** A `data:` line on its own appends its value and dispatches nothing. */
  lemma DataLine(p: Parser, v: string)
    requires Text.IsTrimmed(v)
    ensures ParseLines(p, ["data:" + v]) == Parsed(p.(data := p.data + v), [])
  {
    FeedData(p, v);
    ParseFieldLine(p, "data:" + v);
  }

  /** Two lines that dispatch nothing are skipped over in front of more. */
  lemma SilentPair(p: Parser, q: Parser, r: Parser, x: string, y: string, rest: seq<string>)
    requires ParseLines(p, [x]) == Parsed(q, []) && ParseLines(q, [y]) == Parsed(r, [])
    ensures ParseLines(p, [x] + ([y] + rest)) == ParseLines(r, rest)
  {
    SilentPrefix(q, r, [y], rest);
    SilentPrefix(p, q, [x], [y] + rest);
  }
}
