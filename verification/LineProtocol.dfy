// The line form in which samples reach the time-series store, and how a receiver
// reads it back (go-telemetry/internal/writer/writer.go).
module LineProtocol {
  import opened Decimal

  // ---- Escaping ------------------------------------------------------------

  // strings.ReplaceAll for a one-character pattern.
  function ReplaceAll(s: string, c: char, with: string): string {
    if s == "" then "" else (if s[0] == c then with else [s[0]]) + ReplaceAll(s[1..], c, with)
  }

  // Three passes, one per character that the line form reserves.
  function Escape(s: string): string {
    ReplaceAll(ReplaceAll(ReplaceAll(s, ' ', "\\ "), ',', "\\,"), '=', "\\=")
  }

  predicate Reserved(c: char) { c == ' ' || c == ',' || c == '=' }

  function Escaped(c: char): string { if Reserved(c) then ['\\', c] else [c] }

  // The same in one pass.
  function EscapeOnce(s: string): string { if s == "" then "" else Escaped(s[0]) + EscapeOnce(s[1..]) }

  lemma ReplaceAllHead(s: string, c: char, with: string)
    requires s != ""
    ensures ReplaceAll(s, c, with) == ReplaceAll([s[0]], c, with) + ReplaceAll(s[1..], c, with)
  {
  }

  lemma ConcatAssoc(a: string, b: string, c: string)
    ensures (a + b) + c == a + (b + c)
  {
  }

  lemma {:induction false} ReplaceAllConcat(a: string, b: string, c: char, with: string)
    ensures ReplaceAll(a + b, c, with) == ReplaceAll(a, c, with) + ReplaceAll(b, c, with)
  {
    if a == "" {
      assert a + b == b;
    } else {
      ReplaceAllConcat(a[1..], b, c, with);
      ReplaceAllHead(a, c, with);
      ReplaceAllHead(a + b, c, with);
      assert (a + b)[1..] == a[1..] + b;
      hide ReplaceAll;
      ConcatAssoc(ReplaceAll([a[0]], c, with), ReplaceAll(a[1..], c, with), ReplaceAll(b, c, with));
    }
  }

  lemma ReplaceAllOne(x: char, c: char, with: string)
    ensures ReplaceAll([x], c, with) == if x == c then with else [x]
  {
  }

  lemma EscapeChar(x: char)
    ensures Escape([x]) == Escaped(x)
  {
    ReplaceAllOne(x, ' ', "\\ ");
    if x == ' ' {
      assert "\\ " == ['\\'] + [' '];
      ReplaceAllConcat(['\\'], [' '], ',', "\\,");
      ReplaceAllConcat(['\\'], [' '], '=', "\\=");
    } else if x == ',' {
      assert "\\," == ['\\'] + [','];
      ReplaceAllConcat(['\\'], [','], '=', "\\=");
    }
  }

  // The passes do not disturb one another.
  lemma {:induction false} EscapeIsOnePass(s: string)
    ensures Escape(s) == EscapeOnce(s)
  {
    if s != "" {
      var (h, t) := ([s[0]], s[1..]);
      assert s == h + t;
      ReplaceAllConcat(h, t, ' ', "\\ ");
      var (h1, t1) := (ReplaceAll(h, ' ', "\\ "), ReplaceAll(t, ' ', "\\ "));
      ReplaceAllConcat(h1, t1, ',', "\\,");
      var (h2, t2) := (ReplaceAll(h1, ',', "\\,"), ReplaceAll(t1, ',', "\\,"));
      ReplaceAllConcat(h2, t2, '=', "\\=");
      EscapeChar(s[0]);
      EscapeIsOnePass(t);
    }
  }

  // ---- Reading a field -----------------------------------------------------

  // Reads to the first reserved character that no backslash precedes, undoing
  // escapes on the way. A backslash before anything else stands for itself.
  function ReadField(s: string): (r: (string, string))
    ensures |r.0| + |r.1| <= |s|
  {
    if s == "" then ("", "")
    else if |s| >= 2 && s[0] == '\\' && Reserved(s[1]) then
      var r := ReadField(s[2..]);
      ([s[1]] + r.0, r.1)
    else if Reserved(s[0]) then ("", s)
    else
      var r := ReadField(s[1..]);
      ([s[0]] + r.0, r.1)
  }

  predicate EndsInBackslash(s: string) { s != "" && s[|s| - 1] == '\\' }

  // What follows a field: a reserved character, or the end of the input.
  predicate AtBreak(rest: string) { rest == "" || Reserved(rest[0]) }

  // Reading one escaped character takes it off, unless it is a backslash that what
  // follows turns into an escape.
  lemma ReadStep(c: char, t: string)
    requires c == '\\' ==> t == "" || !Reserved(t[0])
    ensures ReadField(Escaped(c) + t) == ([c] + ReadField(t).0, ReadField(t).1)
  {
    var x := Escaped(c) + t;
    if Reserved(c) { assert x[2..] == t; } else { assert x[1..] == t; }
  }

  // No escaped text begins with a reserved character.
  lemma EscapeStartsPlain(s: string, rest: string)
    requires s != ""
    ensures EscapeOnce(s) + rest != "" && !Reserved((EscapeOnce(s) + rest)[0])
  {
  }

  lemma EscapeSplits(s: string, rest: string)
    requires s != ""
    ensures EscapeOnce(s) + rest == Escaped(s[0]) + (EscapeOnce(s[1..]) + rest)
  {
  }

  lemma {:induction false} ReadEscaped(s: string, rest: string)
    requires AtBreak(rest) && (rest == "" || !EndsInBackslash(s))
    ensures ReadField(EscapeOnce(s) + rest) == (s, rest)
  {
    if s == "" {
      assert EscapeOnce(s) + rest == rest;
    } else {
      EscapeSplits(s, rest);
      ReadEscaped(s[1..], rest);
      if s[1..] != "" { EscapeStartsPlain(s[1..], rest); }
      hide EscapeOnce, ReadField;
      assert s[1..] == "" && s[0] == '\\' ==> rest == "";
      assert EscapeOnce("") + rest == rest by { EscapeOfNothing(); }
      ReadStep(s[0], EscapeOnce(s[1..]) + rest);
      assert s == [s[0]] + s[1..];
    }
  }

  lemma EscapeOfNothing()
    ensures EscapeOnce("") == ""
  {
  }

  lemma SwallowsOne(rest: string)
    requires rest != "" && Reserved(rest[0])
    ensures var f := ReadField(EscapeOnce("\\") + rest).0; f != "" && f[0] == rest[0]
  {
    assert EscapeOnce("\\") + rest == ['\\'] + rest;
  }

  // A field that ends in a backslash swallows the separator behind it.
  lemma {:induction false} ReadSwallowed(s: string, rest: string)
    requires rest != "" && Reserved(rest[0]) && EndsInBackslash(s)
    ensures var f := ReadField(EscapeOnce(s) + rest).0; |f| >= |s| && f[|s| - 1] == rest[0]
  {
    hide EscapeOnce, ReadField, Escaped;
    if |s| == 1 {
      assert s == "\\";
      SwallowsOne(rest);
    } else {
      EscapeSplits(s, rest);
      ReadSwallowed(s[1..], rest);
      EscapeStartsPlain(s[1..], rest);
      ReadStep(s[0], EscapeOnce(s[1..]) + rest);
    }
  }

  // A field written before a separator reads back iff it does not end in a backslash.
  lemma FieldRoundTripIff(s: string, rest: string)
    requires rest != "" && Reserved(rest[0])
    ensures ReadField(Escape(s) + rest) == (s, rest) <==> !EndsInBackslash(s)
    ensures EndsInBackslash(s) ==> ReadField(Escape(s) + rest).0 != s
  {
    EscapeIsOnePass(s);
    if EndsInBackslash(s) { ReadSwallowed(s, rest); } else { ReadEscaped(s, rest); }
  }

  // Alone, every escaped text reads back.
  lemma UnescapeInverts(s: string)
    ensures ReadField(Escape(s)) == (s, "")
  {
    EscapeIsOnePass(s);
    ReadEscaped(s, "");
    assert EscapeOnce(s) + "" == EscapeOnce(s);
  }

  // ---- A line --------------------------------------------------------------

  // `value` is the sample's value as formatFloat prints it.
  datatype Sample = Sample(device: string, sensor: string, metric: string, value: string, unixNano: int)

  function FormatInt(n: int): string { if n < 0 then "-" + Format(-n) else Format(n) }

  // The store's clock stands in for a missing timestamp.
  function Stamp(unixNano: int, now: int): int { if unixNano <= 0 then now else unixNano }

  function Line(table: string, p: Sample, ts: int): string {
    table + (",device=" + (Escape(p.device) + (",sensor=" + (Escape(p.sensor) + (",metric=" + (Escape(p.metric)
      + (" value=" + (p.value + (" " + FormatInt(ts))))))))))
  }

  predicate Plain(s: string) { forall i :: 0 <= i < |s| ==> !Reserved(s[i]) && s[i] != '\\' && s[i] != '\n' }

  datatype Parsed = Malformed | Parsed(table: string, device: string, sensor: string, metric: string,
                                       value: string, unixNano: int)

  predicate Starts(s: string, prefix: string) { |s| >= |prefix| && s[..|prefix|] == prefix }

  // Reads the fixed text `tag`, then a field: nothing if the tag is absent.
  function ReadLabelled(s: string, tag: string): (bool, string, string) {
    if Starts(s, tag) then
      var r := ReadField(s[|tag|..]);
      (true, r.0, r.1)
    else (false, "", "")
  }

  function ReadInt(s: string): (bool, int) {
    if s != "" && s[0] == '-' then
      if |s| > 1 && Digits(s[1..]) then (true, 0 - Parse(s[1..])) else (false, 0)
    else if s != "" && Digits(s) then (true, Parse(s))
    else (false, 0)
  }

  // A receiver of the line form.
  function ParseLine(line: string): Parsed {
    var t := ReadField(line);
    var d := ReadLabelled(t.1, ",device=");
    var s := ReadLabelled(d.2, ",sensor=");
    var m := ReadLabelled(s.2, ",metric=");
    var v := ReadLabelled(m.2, " value=");
    if d.0 && s.0 && m.0 && v.0 && Starts(v.2, " ") && ReadInt(v.2[1..]).0
    then Parsed(t.0, d.1, s.1, m.1, v.1, ReadInt(v.2[1..]).1)
    else Malformed
  }

  lemma {:induction false} PlainEscapes(s: string)
    requires Plain(s)
    ensures EscapeOnce(s) == s
  {
    if s != "" { PlainEscapes(s[1..]); }
  }

  lemma PlainField(s: string, rest: string)
    requires Plain(s) && rest != "" && Reserved(rest[0])
    ensures ReadField(s + rest) == (s, rest)
  {
    PlainEscapes(s);
    ReadEscaped(s, rest);
  }

  lemma LabelledField(tag: string, s: string, rest: string)
    requires rest != "" && Reserved(rest[0])
    ensures var r := ReadLabelled(tag + (Escape(s) + rest), tag);
            r.0 && (!EndsInBackslash(s) ==> r == (true, s, rest)) && (EndsInBackslash(s) ==> r.1 != s)
  {
    var x := tag + (Escape(s) + rest);
    assert x[..|tag|] == tag && x[|tag|..] == Escape(s) + rest;
    FieldRoundTripIff(s, rest);
  }

  lemma IntRoundTrip(n: int)
    ensures ReadInt(FormatInt(n)) == (true, n)
  {
    if n < 0 {
      ParseFormat(-n);
      assert FormatInt(n)[1..] == Format(-n);
    } else {
      ParseFormat(n);
      assert IsDigit(Format(n)[0]);
    }
  }

  // The value and the time stamp at the end of a line.
  lemma TailReads(value: string, ts: int)
    requires Plain(value)
    ensures var r := ReadLabelled(" value=" + (value + (" " + FormatInt(ts))), " value=");
            r.0 && r.1 == value && Starts(r.2, " ") && ReadInt(r.2[1..]) == (true, ts)
  {
    var end := " " + FormatInt(ts);
    var x := " value=" + (value + end);
    assert x[..7] == " value=" && x[7..] == value + end;
    PlainField(value, end);
    assert end[1..] == FormatInt(ts);
    IntRoundTrip(ts);
  }

  // A line reads back, field by field, iff no tag ends in a backslash: such a tag
  // would swallow the separator behind it.
  lemma LineRoundTripIff(table: string, p: Sample, ts: int)
    requires Plain(table) && Plain(p.value)
    ensures ParseLine(Line(table, p, ts)) == Parsed(table, p.device, p.sensor, p.metric, p.value, ts)
       <==> !EndsInBackslash(p.device) && !EndsInBackslash(p.sensor) && !EndsInBackslash(p.metric)
  {
    var r4 := " value=" + (p.value + (" " + FormatInt(ts)));
    var r3 := ",metric=" + (Escape(p.metric) + r4);
    var r2 := ",sensor=" + (Escape(p.sensor) + r3);
    var r1 := ",device=" + (Escape(p.device) + r2);
    assert Line(table, p, ts) == table + r1;
    PlainField(table, r1);
    LabelledField(",device=", p.device, r2);
    LabelledField(",sensor=", p.sensor, r3);
    LabelledField(",metric=", p.metric, r4);
    TailReads(p.value, ts);
    hide Escape, EndsInBackslash, ReadLabelled, ReadInt, Starts, Line;
  }

  lemma {:induction false} EscapeOnceConcat(a: string, b: string)
    ensures EscapeOnce(a + b) == EscapeOnce(a) + EscapeOnce(b)
  {
    if a == "" {
      assert a + b == b;
    } else {
      EscapeOnceConcat(a[1..], b);
      assert (a + b)[1..] == a[1..] + b;
    }
  }

  // A text with one reserved character in it gets one backslash, before it.
  lemma EscapesOne(a: string, c: char, b: string)
    requires Plain(a) && Plain(b) && Reserved(c)
    ensures Escape(a + [c] + b) == a + ['\\', c] + b
  {
    EscapeIsOnePass(a + [c] + b);
    EscapeOnceConcat(a + [c], b);
    EscapeOnceConcat(a, [c]);
    PlainEscapes(a);
    PlainEscapes(b);
    assert EscapeOnce([c]) == ['\\', c] by { EscapeOfNothing(); }
  }

  // How a sample looks on the wire whose device and sensor have one reserved character each.
  lemma LineShows(a: string, c: char, b: string)
    requires Plain(a) && Plain(b) && Reserved(c)
    ensures Line("readings", Sample(a + [c] + b, b + [c] + a, "air", "21.5", 0), -5)
         == "readings" + (",device=" + ((a + ['\\', c] + b) + (",sensor=" + ((b + ['\\', c] + a)
            + (",metric=" + ("air" + (" value=" + ("21.5" + (" " + "-5")))))))))
  {
    EscapesOne(a, c, b);
    EscapesOne(b, c, a);
    PlainEscape("air");
    assert FormatInt(-5) == "-5";
    hide Escape;
  }

  lemma PlainEscape(s: string)
    requires Plain(s)
    ensures Escape(s) == s
  {
    EscapeIsOnePass(s);
    PlainEscapes(s);
  }

  // Which time a line bears: the sample's own, or the clock's where that is not after
  // the epoch.
  lemma StampReads(table: string, p: Sample, now: int)
    requires Plain(table) && Plain(p.value)
    requires !EndsInBackslash(p.device) && !EndsInBackslash(p.sensor) && !EndsInBackslash(p.metric)
    ensures ParseLine(LineOf(table, p, now))
         == Parsed(table, p.device, p.sensor, p.metric, p.value, if p.unixNano > 0 then p.unixNano else now)
  {
    hide Line, ParseLine;
    LineRoundTripIff(table, p, Stamp(p.unixNano, now));
  }

  // ---- A batch -------------------------------------------------------------

  function Payload(table: string, pts: seq<Sample>, now: int): string {
    if pts == [] then ""
    else Payload(table, pts[..|pts| - 1], now)
         + (LineOf(table, pts[|pts| - 1], now) + "\n")
  }

  // The complete lines of a stream, the first of which has begun with `line`.
  function LinesFrom(line: string, s: string): seq<string>
    decreases |s|
  {
    if s == "" then []
    else if s[0] == '\n' then [line] + LinesFrom("", s[1..])
    else LinesFrom(line + [s[0]], s[1..])
  }

  function Lines(s: string): seq<string> { LinesFrom("", s) }

  function Newlines(s: string): nat { if s == "" then 0 else (if s[0] == '\n' then 1 else 0) + Newlines(s[1..]) }

  lemma {:induction false} NewlinesConcat(a: string, b: string)
    ensures Newlines(a + b) == Newlines(a) + Newlines(b)
  {
    if a == "" {
      assert a + b == b;
    } else {
      NewlinesConcat(a[1..], b);
      assert (a + b)[1..] == a[1..] + b;
    }
  }

  lemma {:induction false} NoNewlines(s: string)
    ensures Newlines(s) == 0 <==> '\n' !in s
  {
    if s != "" { NoNewlines(s[1..]); }
  }

  lemma {:induction false} LinesCount(line: string, s: string)
    ensures |LinesFrom(line, s)| == Newlines(s)
    decreases |s|
  {
    if s != "" { LinesCount(if s[0] == '\n' then "" else line + [s[0]], s[1..]); }
  }

  lemma {:induction false} OneLine(line: string, s: string)
    requires '\n' !in s
    ensures LinesFrom(line, s + "\n") == [line + s]
    decreases |s|
  {
    var x := s + "\n";
    if s == "" {
      assert x == "\n" && line + s == line;
    } else {
      OneLine(line + [s[0]], s[1..]);
      assert x[1..] == s[1..] + "\n" && (line + [s[0]]) + s[1..] == line + s;
    }
  }

  // After a complete line the stream starts afresh.
  lemma {:induction false} LinesSplit(line: string, s: string, t: string)
    requires (s == "" && line == "") || (s != "" && s[|s| - 1] == '\n')
    ensures LinesFrom(line, s + t) == LinesFrom(line, s) + LinesFrom("", t)
    decreases |s|
  {
    if s == "" {
      assert s + t == t;
    } else {
      assert (s + t)[1..] == s[1..] + t;
      LinesSplit(if s[0] == '\n' then "" else line + [s[0]], s[1..], t);
    }
  }

  predicate OneLineEach(p: Sample) { '\n' !in p.device && '\n' !in p.sensor && '\n' !in p.metric }

  lemma {:induction false} EscapeNewlines(s: string)
    ensures Newlines(EscapeOnce(s)) == Newlines(s)
  {
    if s != "" {
      EscapeNewlines(s[1..]);
      NewlinesConcat(Escaped(s[0]), EscapeOnce(s[1..]));
      assert Newlines(Escaped(s[0])) == if s[0] == '\n' then 1 else 0 by {
        assert Escaped(s[0])[1..] == if Reserved(s[0]) then [s[0]] else [];
      }
    }
  }

  lemma FieldNewlines(tag: string, s: string, rest: string)
    requires '\n' !in tag
    ensures Newlines(tag + (Escape(s) + rest)) == Newlines(s) + Newlines(rest)
  {
    EscapeIsOnePass(s);
    EscapeNewlines(s);
    NoNewlines(tag);
    NewlinesConcat(tag, Escape(s) + rest);
    NewlinesConcat(Escape(s), rest);
  }

  lemma TailNewlines(value: string, ts: int)
    requires Plain(value)
    ensures Newlines(" value=" + (value + (" " + FormatInt(ts)))) == 0
  {
    assert forall i :: 0 <= i < |FormatInt(ts)| ==> FormatInt(ts)[i] == '-' || IsDigit(FormatInt(ts)[i]);
    NoNewlines(" value=" + (value + (" " + FormatInt(ts))));
  }

  lemma LineNewlines(table: string, p: Sample, ts: int)
    requires Plain(table) && Plain(p.value)
    ensures Newlines(Line(table, p, ts)) == Newlines(p.device) + Newlines(p.sensor) + Newlines(p.metric)
  {
    var r4 := " value=" + (p.value + (" " + FormatInt(ts)));
    var r3 := ",metric=" + (Escape(p.metric) + r4);
    var r2 := ",sensor=" + (Escape(p.sensor) + r3);
    var r1 := ",device=" + (Escape(p.device) + r2);
    TailNewlines(p.value, ts);
    FieldNewlines(",metric=", p.metric, r4);
    FieldNewlines(",sensor=", p.sensor, r3);
    FieldNewlines(",device=", p.device, r2);
    NoNewlines(table);
    NewlinesConcat(table, r1);
  }

  ghost predicate AllPlain(pts: seq<Sample>) { forall i :: 0 <= i < |pts| ==> Plain(pts[i].value) }

  ghost predicate AllOneLine(pts: seq<Sample>) { forall i :: 0 <= i < |pts| ==> OneLineEach(pts[i]) }

  function LineOf(table: string, p: Sample, now: int): string { Line(table, p, Stamp(p.unixNano, now)) }

  lemma LineFreeIff(table: string, p: Sample, now: int)
    requires Plain(table) && Plain(p.value)
    ensures '\n' !in LineOf(table, p, now) <==> OneLineEach(p)
  {
    LineNewlines(table, p, Stamp(p.unixNano, now));
    NoNewlines(LineOf(table, p, now));
    NoNewlines(p.device);
    NoNewlines(p.sensor);
    NoNewlines(p.metric);
  }

  function AllLines(table: string, pts: seq<Sample>, now: int): seq<string> {
    seq(|pts|, i requires 0 <= i < |pts| => LineOf(table, pts[i], now))
  }

  lemma AllLinesSnoc(table: string, pts: seq<Sample>, now: int)
    requires pts != []
    ensures AllLines(table, pts, now) == AllLines(table, pts[..|pts| - 1], now) + [LineOf(table, pts[|pts| - 1], now)]
  {
    hide LineOf;
  }

  lemma CountStep(sent: string, line: string)
    ensures Newlines(sent + (line + "\n")) == Newlines(sent) + Newlines(line) + 1
  {
    NewlinesConcat(sent, line + "\n");
    NewlinesConcat(line, "\n");
    assert Newlines("\n") == 1;
  }

  lemma AllOneLineSnoc(pts: seq<Sample>)
    requires pts != []
    ensures AllOneLine(pts) <==> AllOneLine(pts[..|pts| - 1]) && OneLineEach(pts[|pts| - 1])
  {
    hide OneLineEach;
    if AllOneLine(pts) { assert forall i :: 0 <= i < |pts| - 1 ==> pts[..|pts| - 1][i] == pts[i]; }
  }

  lemma LineNewlinesIff(table: string, p: Sample, now: int)
    requires Plain(table) && Plain(p.value)
    ensures Newlines(LineOf(table, p, now)) == 0 <==> OneLineEach(p)
  {
    LineFreeIff(table, p, now);
    NoNewlines(LineOf(table, p, now));
  }

  lemma {:induction false} PayloadCount(table: string, pts: seq<Sample>, now: int)
    requires Plain(table) && AllPlain(pts)
    ensures Newlines(Payload(table, pts, now)) >= |pts|
    ensures Newlines(Payload(table, pts, now)) == |pts| ==> AllOneLine(pts)
  {
    if pts != [] {
      var (front, p) := (pts[..|pts| - 1], pts[|pts| - 1]);
      PayloadCount(table, front, now);
      LineNewlinesIff(table, p, now);
      AllOneLineSnoc(pts);
      var sent := Payload(table, front, now);
      assert Payload(table, pts, now) == sent + (LineOf(table, p, now) + "\n");
      hide *;
      CountStep(sent, LineOf(table, p, now));
    }
  }

  ghost predicate Complete(s: string) { s == "" || s[|s| - 1] == '\n' }

  lemma {:induction false} PayloadSplits(table: string, pts: seq<Sample>, now: int)
    requires Plain(table) && AllPlain(pts) && AllOneLine(pts)
    ensures Lines(Payload(table, pts, now)) == AllLines(table, pts, now) && Complete(Payload(table, pts, now))
  {
    if pts != [] {
      var (front, p) := (pts[..|pts| - 1], pts[|pts| - 1]);
      var l := LineOf(table, p, now);
      PayloadSplits(table, front, now);
      AllLinesSnoc(table, pts, now);
      LineFreeIff(table, p, now);
      OneLine("", l);
      LinesSplit("", Payload(table, front, now), l + "\n");
      assert "" + l == l;
      hide LineOf, Line, LinesFrom, AllLines, Plain;
    }
  }

  // The stream of a batch falls into exactly one line per point, that point's line,
  // iff no tag contains a newline.
  lemma BatchSplitsIff(table: string, pts: seq<Sample>, now: int)
    requires Plain(table) && AllPlain(pts)
    ensures Lines(Payload(table, pts, now)) == AllLines(table, pts, now) <==> AllOneLine(pts)
    ensures |Lines(Payload(table, pts, now))| == |pts| <==> AllOneLine(pts)
  {
    LinesCount("", Payload(table, pts, now));
    PayloadCount(table, pts, now);
    if AllOneLine(pts) { PayloadSplits(table, pts, now); }
  }

  // ---- The writers ---------------------------------------------------------

  // What the network does to one batch.
  datatype Network = Network(dials: bool, takesDeadline: bool, writes: bool, accepted: nat)

  class QuestDb {
    const table: string
    var connected: bool
    // Everything handed to a connection so far.
    ghost var wire: string

    constructor (table: string)
      ensures this.table == (if table == "" then "readings" else table) && !connected && wire == ""
    {
      this.table := if table == "" then "readings" else table;
      connected, wire := false, "";
    }

    // An empty batch does nothing. A batch goes out whole or the write fails, in
    // which case a part of it may be out and the connection is dropped.
    method WriteBatch(pts: seq<Sample>, now: int, net: Network) returns (ok: bool)
      modifies this
      ensures ok <==> pts == [] || ((old(connected) || net.dials) && net.takesDeadline && net.writes)
      ensures ok ==> wire == old(wire) + Payload(table, pts, now)
      ensures !ok ==> exists n :: 0 <= n <= |Payload(table, pts, now)|
                                  && wire == old(wire) + Payload(table, pts, now)[..n]
      ensures connected == if pts == [] then old(connected)
                           else (old(connected) || net.dials) && (net.takesDeadline ==> net.writes)
    {
      if pts == [] {
        return true;
      }
      var payload := "";
      for i := 0 to |pts|
        invariant payload == Payload(table, pts[..i], now)
        invariant wire == old(wire) && connected == old(connected)
      {
        assert pts[..i + 1][..i] == pts[..i];
        payload := payload + (LineOf(table, pts[i], now) + "\n");
      }
      assert pts[..|pts|] == pts;
      assert wire == old(wire) + payload[..0];
      if !connected {
        if !net.dials {
          return false;
        }
        connected := true;
      }
      if !net.takesDeadline {
        return false;
      }
      if !net.writes {
        var n := if net.accepted < |payload| then net.accepted else |payload|;
        wire := wire + payload[..n];
        connected := false;
        return false;
      }
      wire := wire + payload;
      ok := true;
    }
  }

  // The development writer has no clock to fall back on.
  function LogPayload(table: string, pts: seq<Sample>): string {
    if pts == [] then ""
    else LogPayload(table, pts[..|pts| - 1]) + (Line(table, pts[|pts| - 1], pts[|pts| - 1].unixNano) + "\n")
  }

  class Log {
    const table: string
    var text: string

    constructor (table: string)
      ensures this.table == (if table == "" then "readings" else table) && text == ""
    {
      this.table := if table == "" then "readings" else table;
      text := "";
    }

    method WriteBatch(pts: seq<Sample>)
      modifies this
      ensures text == old(text) + LogPayload(table, pts)
    {
      var b := "";
      for i := 0 to |pts|
        invariant b == LogPayload(table, pts[..i]) && text == old(text)
      {
        assert pts[..i + 1][..i] == pts[..i];
        b := b + (Line(table, pts[i], pts[i].unixNano) + "\n");
      }
      assert pts[..|pts|] == pts;
      text := text + b;
    }
  }

  function RawLines(table: string, pts: seq<Sample>): seq<string> {
    seq(|pts|, i requires 0 <= i < |pts| => Line(table, pts[i], pts[i].unixNano))
  }

  lemma RawLinesSnoc(table: string, pts: seq<Sample>)
    requires pts != []
    ensures var (n, p) := (|pts| - 1, pts[|pts| - 1]);
            RawLines(table, pts) == RawLines(table, pts[..n]) + [Line(table, p, p.unixNano)]
  {
    hide Line;
  }

  lemma RawLineFree(table: string, p: Sample)
    requires Plain(table) && Plain(p.value) && OneLineEach(p)
    ensures '\n' !in Line(table, p, p.unixNano)
  {
    LineNewlines(table, p, p.unixNano);
    NoNewlines(Line(table, p, p.unixNano));
    NoNewlines(p.device);
    NoNewlines(p.sensor);
    NoNewlines(p.metric);
  }

  // The development writer's text falls into one line per point, each with the
  // sample's own stamp, whatever that is.
  lemma {:induction false} LogSplits(table: string, pts: seq<Sample>)
    requires Plain(table) && AllPlain(pts) && AllOneLine(pts)
    ensures Lines(LogPayload(table, pts)) == RawLines(table, pts) && Complete(LogPayload(table, pts))
  {
    if pts != [] {
      var (front, p) := (pts[..|pts| - 1], pts[|pts| - 1]);
      var l := Line(table, p, p.unixNano);
      LogSplits(table, front);
      RawLinesSnoc(table, pts);
      RawLineFree(table, p);
      OneLine("", l);
      LinesSplit("", LogPayload(table, front), l + "\n");
      assert "" + l == l;
      hide Line, LinesFrom, RawLines, Plain;
    }
  }

  // On samples stamped after the epoch the two writers agree.
  lemma {:induction false} WritersAgree(table: string, pts: seq<Sample>, now: int)
    requires forall i :: 0 <= i < |pts| ==> pts[i].unixNano > 0
    ensures LogPayload(table, pts) == Payload(table, pts, now)
  {
    if pts != [] {
      WritersAgree(table, pts[..|pts| - 1], now);
    }
  }
}
