/**
 * The line-folding log parser. Each line is matched against a pattern whose
 * every part is optional: a timestamp, an optional space, a level of three
 * to five capital letters, an optional ": ", and a message. A line with a
 * timestamp and a level starts a record; a line with neither continues the
 * last record's message; any other line is dropped.
 */
module LogParser {
  import opened Wrappers
  import opened LineReader
  import opened LogLine

  predicate IsDigit(c: char)
  {
    '0' <= c <= '9'
  }

  predicate IsUpper(c: char)
  {
    'A' <= c <= 'Z'
  }

  /** The text of a level: three to five capital letters. */
  predicate IsLevel(s: string)
  {
    3 <= |s| <= 5 && forall j :: 0 <= j < |s| ==> IsUpper(s[j])
  }

  /**
   * The shape of a timestamp, one character per position: `d` stands for a
   * digit, `?` for any character but a line break, anything else for itself.
   */
  const DatetimeShape: string := "dd-dd-dddd dd:dd:dd?ddddddddd"

  /** Character `c` may stand where the shape has `p`. */
  predicate Fits(p: char, c: char)
  {
    if p == 'd' then IsDigit(c) else if p == '?' then c != '\n' else c == p
  }

  /** `s` starts with a timestamp of the shape above. */
  predicate StartsWithDatetime(s: string)
  {
    |s| >= |DatetimeShape| && forall k :: 0 <= k < |DatetimeShape| ==> Fits(DatetimeShape[k], s[k])
  }

  /** The length of the run of capital letters `s` starts with, counting at most `cap`. */
  function UpperRun(s: string, cap: nat): (n: nat)
    ensures n <= cap && n <= |s|
  {
    if s == [] || cap == 0 || !IsUpper(s[0]) then 0 else 1 + UpperRun(s[1..], cap - 1)
  }

  lemma {:induction false} UpperRunIsUpper(s: string, cap: nat)
    ensures forall j :: 0 <= j < UpperRun(s, cap) ==> IsUpper(s[j])
  {
    if s != [] && cap != 0 && IsUpper(s[0]) {
      UpperRunIsUpper(s[1..], cap - 1);
    }
  }

  /** The run stops at the cap, at the end of the text, or before the first character that is not a capital. */
  lemma {:induction false} UpperRunMaximal(s: string, cap: nat)
    ensures UpperRun(s, cap) == cap || UpperRun(s, cap) == |s| || !IsUpper(s[UpperRun(s, cap)])
  {
    if s != [] && cap != 0 && IsUpper(s[0]) {
      UpperRunMaximal(s[1..], cap - 1);
    }
  }

  /** Capitals within the cap, followed by the end of the text or by a non-capital, are counted exactly. */
  lemma {:induction false} UpperRunOf(t: string, s: string, cap: nat)
    requires |t| <= cap
    requires forall j :: 0 <= j < |t| ==> IsUpper(t[j])
    requires s == [] || !IsUpper(s[0])
    ensures UpperRun(t + s, cap) == |t|
  {
    if t == [] {
      assert t + s == s;
    } else {
      assert (t + s)[0] == t[0] && (t + s)[1..] == t[1..] + s;
      UpperRunOf(t[1..], s, cap - 1);
    }
  }

  /**
   * Where the pattern matched one line: the three named groups the parser
   * reads, and the two unnamed optional parts between them.
   */
  datatype Match = Match(
    datetime: Option<string>,
    space: bool,
    level: Option<string>,
    colon: bool,
    message: Option<string>)

  /** A span the match did not take reads as empty. */
  function Span(o: Option<string>): string
  {
    o.GetOr([])
  }

  /** The text the match covers, from the start of the line. */
  function Text(m: Match): string
  {
    Span(m.datetime) + (if m.space then " " else "") + Span(m.level)
      + (if m.colon then ": " else "") + Span(m.message)
  }

  /** The timestamp group: the first 29 characters when they have the timestamp's shape. */
  function DatetimePart(line: string): (Option<string>, string)
  {
    if StartsWithDatetime(line) then (Some(line[..29]), line[29..]) else (None, line)
  }

  /** The optional space. */
  function SpacePart(s: string): (bool, string)
  {
    if s != [] && s[0] == ' ' then (true, s[1..]) else (false, s)
  }

  /** The level group: the longest run of up to five capitals, when it has at least three. */
  function LevelPart(s: string): (Option<string>, string)
  {
    var n := UpperRun(s, 5);
    if n >= 3 then (Some(s[..n]), s[n..]) else (None, s)
  }

  /** The optional ": ". */
  function ColonPart(s: string): (bool, string)
  {
    if |s| >= 2 && s[0] == ':' && s[1] == ' ' then (true, s[2..]) else (false, s)
  }

  /** The message group: everything up to the first line break, when that is not empty. */
  function MessagePart(s: string): (Option<string>, string)
  {
    var k := NewlineIndex(s);
    if k > 0 then (Some(s[..k]), s[k..]) else (None, s)
  }

  /** Each stage splits its input into what it took and what it left, and takes only text of its shape. */
  lemma DatetimePartSplits(s: string)
    ensures s == Span(DatetimePart(s).0) + DatetimePart(s).1
    ensures DatetimePart(s).0.Some? ==>
              |DatetimePart(s).0.value| == 29 && StartsWithDatetime(DatetimePart(s).0.value)
  {
  }

  lemma SpacePartSplits(s: string)
    ensures s == (if SpacePart(s).0 then " " else "") + SpacePart(s).1
  {
  }

  lemma LevelPartSplits(s: string)
    ensures s == Span(LevelPart(s).0) + LevelPart(s).1
    ensures LevelPart(s).0.Some? ==> IsLevel(LevelPart(s).0.value)
  {
    UpperRunIsUpper(s, 5);
  }

  /**
   * The level group is taken exactly when three capitals start the text, and
   * it is the longest such run: five capitals, or all that follow.
   */
  lemma LevelPartLongest(s: string)
    ensures LevelPart(s).0.None? <==> UpperRun(s, 5) < 3
    ensures LevelPart(s).0.None? <==> !(|s| >= 3 && IsUpper(s[0]) && IsUpper(s[1]) && IsUpper(s[2]))
    ensures LevelPart(s).0.Some? ==>
              |LevelPart(s).0.value| == 5 || LevelPart(s).1 == [] || !IsUpper(LevelPart(s).1[0])
  {
    var n := UpperRun(s, 5);
    UpperRunMaximal(s, 5);
    UpperRunThree(s);
    if n >= 3 {
      assert LevelPart(s) == (Some(s[..n]), s[n..]);
      if n < 5 && n < |s| {
        assert s[n..][0] == s[n];
      }
    }
  }

  /** A run of at least three capitals is one whose first three characters are capitals. */
  lemma UpperRunThree(s: string)
    ensures UpperRun(s, 5) >= 3 <==> |s| >= 3 && IsUpper(s[0]) && IsUpper(s[1]) && IsUpper(s[2])
  {
    UpperRunIsUpper(s, 5);
    if |s| >= 3 && IsUpper(s[0]) && IsUpper(s[1]) && IsUpper(s[2]) {
      var s1, s2 := s[1..], s[2..];
      assert s1[0] == s[1] && s1[1..] == s2 && s2[0] == s[2];
      assert UpperRun(s2, 3) == 1 + UpperRun(s2[1..], 2);
      assert UpperRun(s1, 4) == 1 + UpperRun(s2, 3);
      assert UpperRun(s, 5) == 1 + UpperRun(s1, 4);
    }
  }

  lemma ColonPartSplits(s: string)
    ensures s == (if ColonPart(s).0 then ": " else "") + ColonPart(s).1
  {
  }

  lemma MessagePartSplits(s: string)
    ensures s == Span(MessagePart(s).0) + MessagePart(s).1
    ensures MessagePart(s).1 == [] || MessagePart(s).1[0] == '\n'
    ensures MessagePart(s).0.Some? ==> MessagePart(s).0.value != [] && '\n' !in MessagePart(s).0.value
  {
    NewlineIndexIsFirst(s);
  }

  /**
   * The first match of the pattern in `line`, which always starts at index
   * 0. Every part is greedy and tried in order: the timestamp when the line
   * starts with one, a space when one follows, the longest level of up to
   * five capitals when at least three follow, ": " when it follows, and
   * everything up to the end of the line as the message when that is
   * non-empty.
   */
  function Recognise(line: string): Match
  {
    var (dt, r1) := DatetimePart(line);
    var (sp, r2) := SpacePart(r1);
    var (lv, r3) := LevelPart(r2);
    var (co, r4) := ColonPart(r3);
    var (msg, _) := MessagePart(r4);
    Match(dt, sp, lv, co, msg)
  }

  /**
   * The timestamp group is 29 characters of the timestamp's shape, the level
   * group three to five capitals, and the message group a non-empty run
   * without line breaks.
   */
  lemma RecogniseGroups(line: string)
    ensures Recognise(line).datetime.Some? <==> StartsWithDatetime(line)
    ensures Recognise(line).datetime.Some? ==> Recognise(line).datetime.value == line[..29]
    ensures Recognise(line).datetime.Some? ==>
              |Recognise(line).datetime.value| == 29 && StartsWithDatetime(Recognise(line).datetime.value)
    ensures Recognise(line).level.Some? ==> IsLevel(Recognise(line).level.value)
    ensures Recognise(line).message.Some? ==>
              Recognise(line).message.value != [] && '\n' !in Recognise(line).message.value
  {
    var (dt, r1) := DatetimePart(line);
    var (sp, r2) := SpacePart(r1);
    var (lv, r3) := LevelPart(r2);
    var (co, r4) := ColonPart(r3);
    var (msg, rest) := MessagePart(r4);
    DatetimePartSplits(line);
    SpacePartSplits(r1);
    LevelPartSplits(r2);
    ColonPartSplits(r3);
    MessagePartSplits(r4);
  }

  /**
   * The match is a prefix of the line and stops only at a line break or at
   * the end of the line: no character of a line without breaks is left
   * unmatched.
   */
  lemma RecogniseSpans(line: string)
    ensures exists rest :: line == Text(Recognise(line)) + rest && (rest == [] || rest[0] == '\n')
  {
    var (dt, r1) := DatetimePart(line);
    var (sp, r2) := SpacePart(r1);
    var (lv, r3) := LevelPart(r2);
    var (co, r4) := ColonPart(r3);
    var (msg, rest) := MessagePart(r4);
    DatetimePartSplits(line);
    SpacePartSplits(r1);
    LevelPartSplits(r2);
    ColonPartSplits(r3);
    MessagePartSplits(r4);
    var m := Match(dt, sp, lv, co, msg);
    assert Recognise(line) == m;
    var s1, s2 := (if sp then " " else ""), (if co then ": " else "");
    assert line == Span(dt) + (s1 + (Span(lv) + (s2 + (Span(msg) + rest))));
    assert Text(m) == Span(dt) + s1 + Span(lv) + s2 + Span(msg);
    Regroup(Span(dt), s1, Span(lv), s2, Span(msg), rest);
  }

  lemma Regroup(a: string, b: string, c: string, d: string, e: string, f: string)
    ensures a + (b + (c + (d + (e + f)))) == (a + b + c + d + e) + f
  {
  }

  /** Each stage takes exactly its own part of a line laid out part by part. */
  lemma DatetimePartOf(dt: string, rest: string)
    requires |dt| == 29 && StartsWithDatetime(dt)
    ensures DatetimePart(dt + rest) == (Some(dt), rest)
  {
    var line := dt + rest;
    assert line[..29] == dt && line[29..] == rest;
    assert StartsWithDatetime(line) by {
      forall k | 0 <= k < |DatetimeShape| ensures Fits(DatetimeShape[k], line[k]) {
        assert line[k] == dt[k];
      }
    }
  }

  lemma LevelPartOf(lv: string, rest: string)
    requires IsLevel(lv)
    requires rest == [] || !IsUpper(rest[0])
    ensures LevelPart(lv + rest) == (Some(lv), rest)
  {
    UpperRunOf(lv, rest, 5);
    assert (lv + rest)[..|lv|] == lv && (lv + rest)[|lv|..] == rest;
  }

  lemma MessagePartOf(msg: string)
    requires '\n' !in msg
    ensures MessagePart(msg) == (if msg == [] then None else Some(msg), [])
  {
    NewlineIndexIs(msg, |msg|);
    assert msg[..|msg|] == msg && msg[|msg|..] == [];
  }

  /**
   * A line laid out as timestamp, space, level, ": " and message is
   * recognised back into exactly those parts; an empty message takes no
   * group.
   */
  lemma RecogniseRendered(dt: string, lv: string, msg: string)
    requires |dt| == 29 && StartsWithDatetime(dt)
    requires IsLevel(lv)
    requires '\n' !in msg
    ensures Recognise(dt + " " + lv + ": " + msg)
            == Match(Some(dt), true, Some(lv), true, if msg == [] then None else Some(msg))
  {
    var r3 := ": " + msg;
    var r2 := lv + r3;
    var r1 := " " + r2;
    assert dt + " " + lv + ": " + msg == dt + r1;
    DatetimePartOf(dt, r1);
    assert SpacePart(r1) == (true, r2);
    LevelPartOf(lv, r3);
    assert ColonPart(r3) == (true, msg);
    MessagePartOf(msg);
  }

  /** A line without breaks is covered by its match from end to end. */
  lemma RecogniseCovers(line: string)
    requires '\n' !in line
    ensures Text(Recognise(line)) == line
  {
    RecogniseSpans(line);
    var rest :| line == Text(Recognise(line)) + rest && (rest == [] || rest[0] == '\n');
  }

  /** The line starts a new record. */
  predicate Header(m: Match)
  {
    m.datetime.Some? && m.level.Some?
  }

  /** The line continues the last record. */
  predicate Continuation(m: Match)
  {
    m.datetime.None? && m.level.None?
  }

  /** The records after one more line was matched as `m`. */
  function Absorb(logs: seq<Log>, m: Match): seq<Log>
  {
    if Header(m) then logs + [Log(m.datetime.value, m.level.value, m.message.GetOr([]))]
    else if Continuation(m) && logs != [] && m.message.Some? then
      var last := logs[|logs| - 1];
      logs[|logs| - 1 := last.(message := last.message + m.message.value)]
    else logs
  }

  /** The records `parse_lines` returns for `lines`. */
  function Parsed(lines: seq<string>): seq<Log>
  {
    if lines == [] then []
    else Absorb(Parsed(lines[..|lines| - 1]), Recognise(lines[|lines| - 1]))
  }

  lemma ParsedSnoc(lines: seq<string>, i: nat)
    requires i < |lines|
    ensures Parsed(lines[..i + 1]) == Absorb(Parsed(lines[..i]), Recognise(lines[i]))
  {
    assert lines[..i + 1][..i] == lines[..i];
  }

  /** The datetime parser accepts the timestamp of every line that starts a record. */
  predicate HeadersAccepted(lines: seq<string>, accepts: string -> bool)
  {
    forall i :: 0 <= i < |lines| && Header(Recognise(lines[i])) ==> accepts(Recognise(lines[i]).datetime.value)
  }

  /**
   * `Log::parse_lines`. The datetime parser's `unwrap` panics on a timestamp
   * it rejects, so every record-starting line must carry one it accepts.
   */
  method ParseLines(lines: seq<string>, accepts: string -> bool) returns (logs: seq<Log>)
    requires HeadersAccepted(lines, accepts)
    ensures logs == Parsed(lines)
  {
    logs := [];
    for i := 0 to |lines|
      invariant logs == Parsed(lines[..i])
    {
      logs := ParseLine(logs, lines[i], accepts);
      ParsedSnoc(lines, i);
    }
    assert lines[..|lines|] == lines;
  }

  /** One turn of the loop in `parse_lines`: match the line, then start a record, extend the last one, or drop the line. */
  method ParseLine(logs: seq<Log>, line: string, accepts: string -> bool) returns (logs': seq<Log>)
    requires Header(Recognise(line)) ==> accepts(Recognise(line).datetime.value)
    ensures logs' == Absorb(logs, Recognise(line))
  {
    logs' := logs;
    var caps := Recognise(line);
    match (caps.datetime, caps.level) {
      case (Some(datetime), Some(level)) =>
        assert accepts(datetime);
        var message := if caps.message.Some? then caps.message.value else "";
        logs' := logs + [Log(datetime, level, message)];
      case (None, None) =>
        if logs != [] && caps.message.Some? {
          var last := logs[|logs| - 1];
          logs' := logs[|logs| - 1 := last.(message := last.message + caps.message.value)];
        }
      case _ =>
    }
  }

  // ---------------------------------------------------------------------
  // What the parser guarantees

  /** How many lines start a record. */
  function HeaderCount(lines: seq<string>): (n: nat)
    ensures n <= |lines|
  {
    if lines == [] then 0
    else HeaderCount(lines[..|lines| - 1]) + (if Header(Recognise(lines[|lines| - 1])) then 1 else 0)
  }

  /** One record per record-starting line, so never more records than lines. */
  lemma {:induction false} ParsedCount(lines: seq<string>)
    ensures |Parsed(lines)| == HeaderCount(lines)
    ensures |Parsed(lines)| <= |lines|
  {
    if lines != [] {
      ParsedCount(lines[..|lines| - 1]);
    }
  }

  /**
   * Every record carries a timestamp of the matched shape that the datetime
   * parser accepted and a level of three to five capital letters.
   */
  lemma {:induction false} ParsedRecords(lines: seq<string>, accepts: string -> bool)
    requires HeadersAccepted(lines, accepts)
    ensures forall r :: r in Parsed(lines) ==>
              |r.datetime| == 29 && StartsWithDatetime(r.datetime) && accepts(r.datetime) && IsLevel(r.level)
  {
    if lines != [] {
      var init := lines[..|lines| - 1];
      assert HeadersAccepted(init, accepts) by {
        forall i | 0 <= i < |init| ensures init[i] == lines[i] { }
      }
      ParsedRecords(init, accepts);
      var m := Recognise(lines[|lines| - 1]);
      RecogniseGroups(lines[|lines| - 1]);
      var logs := Parsed(init);
      assert Parsed(lines) == Absorb(logs, m);
      if Continuation(m) && logs != [] && m.message.Some? {
        assert logs[|logs| - 1] in logs;
      }
    }
  }

  /** The messages of continuation lines, concatenated with no separator. */
  function Continued(cs: seq<string>): string
  {
    if cs == [] then []
    else Continued(cs[..|cs| - 1]) + Span(Recognise(cs[|cs| - 1]).message)
  }

  /**
   * A record-starting line followed by continuation lines becomes one record
   * whose message is the line's own message followed directly by each
   * continuation's message; the records before it are unchanged.
   */
  lemma {:induction false} FoldContinuations(lines: seq<string>, h: string, cs: seq<string>)
    requires Header(Recognise(h))
    requires forall i :: 0 <= i < |cs| ==> Continuation(Recognise(cs[i]))
    ensures Parsed(lines + [h] + cs)
            == Parsed(lines) + [Log(Recognise(h).datetime.value, Recognise(h).level.value,
                                    Span(Recognise(h).message) + Continued(cs))]
  {
    var m := Recognise(h);
    if cs == [] {
      assert lines + [h] + cs == lines + [h];
      assert Span(m.message) + Continued(cs) == Span(m.message);
      HeaderStartsRecord(lines, h);
    } else {
      var init, c := cs[..|cs| - 1], cs[|cs| - 1];
      FoldContinuations(lines, h, init);
      FoldStep(lines, h, init, c);
      assert init + [c] == cs;
    }
  }

  /** One more continuation line extends the folded record. */
  lemma FoldStep(lines: seq<string>, h: string, init: seq<string>, c: string)
    requires Header(Recognise(h)) && Continuation(Recognise(c))
    requires Parsed(lines + [h] + init)
             == Parsed(lines) + [Log(Recognise(h).datetime.value, Recognise(h).level.value,
                                     Span(Recognise(h).message) + Continued(init))]
    ensures Parsed(lines + [h] + (init + [c]))
            == Parsed(lines) + [Log(Recognise(h).datetime.value, Recognise(h).level.value,
                                    Span(Recognise(h).message) + Continued(init + [c]))]
  {
    var m, mc := Recognise(h), Recognise(c);
    var rec := Log(m.datetime.value, m.level.value, Span(m.message) + Continued(init));
    assert lines + [h] + (init + [c]) == (lines + [h] + init) + [c];
    ParsedAppend(lines + [h] + init, c);
    AbsorbContinuation(Parsed(lines), rec, mc);
    assert (init + [c])[..|init|] == init;
    assert Continued(init + [c]) == Continued(init) + Span(mc.message);
    Regroup3(Span(m.message), Continued(init), Span(mc.message));
  }

  /** A record-starting line appends one record carrying its own message, or "" when it has none. */
  lemma HeaderStartsRecord(lines: seq<string>, h: string)
    requires Header(Recognise(h))
    ensures Parsed(lines + [h])
            == Parsed(lines) + [Log(Recognise(h).datetime.value, Recognise(h).level.value, Span(Recognise(h).message))]
  {
    ParsedAppend(lines, h);
  }

  lemma Regroup3(a: string, b: string, c: string)
    ensures a + b + c == a + (b + c)
  {
  }

  /** `Parsed` of a list extended by one line. */
  lemma ParsedAppend(lines: seq<string>, l: string)
    ensures Parsed(lines + [l]) == Absorb(Parsed(lines), Recognise(l))
  {
    assert (lines + [l])[..|lines|] == lines;
  }

  /** A continuation line extends only the last record's message. */
  lemma AbsorbContinuation(logs: seq<Log>, last: Log, m: Match)
    requires Continuation(m)
    ensures Absorb(logs + [last], m) == logs + [last.(message := last.message + Span(m.message))]
  {
    if m.message.None? {
      assert last.message + Span(m.message) == last.message;
    }
  }

  /** A continuation line before any record is lost. */
  lemma OrphanContinuation(lines: seq<string>, c: string)
    requires Parsed(lines) == [] && Continuation(Recognise(c))
    ensures Parsed(lines + [c]) == []
  {
    assert (lines + [c])[..|lines|] == lines;
  }

  /** A line with a timestamp but no level, or a level but no timestamp, changes nothing. */
  lemma HalfMatchDropped(lines: seq<string>, l: string)
    requires !Header(Recognise(l)) && !Continuation(Recognise(l))
    ensures Parsed(lines + [l]) == Parsed(lines)
  {
    assert (lines + [l])[..|lines|] == lines;
  }

  /**
   * A continuation line that starts with three capitals is read as a level
   * without a timestamp and dropped: "JSON err" adds nothing to the record
   * above it.
   */
  lemma CapitalContinuationDropped()
    ensures Recognise("JSON err") == Match(None, false, Some("JSON"), false, Some(" err"))
  {
    var line := "JSON err";
    assert DatetimePart(line) == (None, line);
    assert SpacePart(line) == (false, line);
    UpperRunExample();
    assert line[..4] == "JSON" && line[4..] == " err";
    assert LevelPart(line) == (Some("JSON"), " err");
    assert ColonPart(" err") == (false, " err");
    NewlineIndexIs(" err", 4);
    assert " err"[..4] == " err";
    assert MessagePart(" err").0 == Some(" err");
  }

  lemma UpperRunExample()
    ensures UpperRun("JSON err", 5) == 4
  {
    assert "JSON err"[1..] == "SON err";
    assert "SON err"[1..] == "ON err";
    assert "ON err"[1..] == "N err";
    assert "N err"[1..] == " err";
  }

  /** A continuation line's leading space is taken by the pattern, not by the message. */
  lemma LeadingSpaceLost()
    ensures Recognise(" at x") == Match(None, true, None, false, Some("at x"))
  {
    var line := " at x";
    assert DatetimePart(line) == (None, line);
    assert line[1..] == "at x";
    assert SpacePart(line) == (true, "at x");
    assert UpperRun("at x", 5) == 0;
    assert LevelPart("at x") == (None, "at x");
    assert ColonPart("at x") == (false, "at x");
    NewlineIndexIs("at x", 4);
    assert "at x"[..4] == "at x";
    assert MessagePart("at x").0 == Some("at x");
  }
}
