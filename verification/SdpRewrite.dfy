/**
 The rewrite of host candidates' ports in a session description (candidate attribute:
 section 5.1 of RFC 8839), line by line and field by field.
 */
module SdpRewrite {
  import opened GoStrings

  // ---------------------------------------------------------------- lines

  /** `strings.Split(s, "\n")` */
  function Split(s: string): (lines: seq<string>)
    ensures |lines| >= 1
  {
    if s == [] then [[]]
    else
      var rest := Split(s[1..]);
      if s[0] == '\n' then [[]] + rest else [[s[0]] + rest[0]] + rest[1..]
  }

  /** `strings.Join(lines, "\n")` */
  function Join(lines: seq<string>): string
    requires |lines| >= 1
  {
    if |lines| == 1 then lines[0] else lines[0] + "\n" + Join(lines[1..])
  }

  predicate OneLine(s: string) { '\n' !in s }

  lemma {:induction false} JoinSplit(s: string)
    ensures Join(Split(s)) == s
    ensures forall i :: 0 <= i < |Split(s)| ==> OneLine(Split(s)[i])
  {
    if s != [] {
      JoinSplit(s[1..]);
      var rest := Split(s[1..]);
      if s[0] == '\n' {
        assert Split(s)[1..] == rest;
        assert "" + "\n" + s[1..] == s;
      } else {
        assert Split(s)[1..] == rest[1..];
        if |rest| > 1 { assert [s[0]] + rest[0] + "\n" + Join(rest[1..]) == [s[0]] + (rest[0] + "\n" + Join(rest[1..])); }
        assert [s[0]] + s[1..] == s;
      }
    }
  }

  lemma {:induction false} SplitLine(line: string, rest: string)
    requires OneLine(line)
    ensures Split(line) == [line]
    ensures Split(line + "\n" + rest) == [line] + Split(rest)
  {
    if line == [] {
      assert ("" + "\n" + rest)[1..] == rest;
    } else {
      SplitLine(line[1..], rest);
      assert (line + "\n" + rest)[1..] == line[1..] + "\n" + rest;
      assert [line[0]] + line[1..] == line;
      assert ([line[1..]] + Split(rest))[1..] == Split(rest);
    }
  }

  lemma {:induction false} SplitJoin(lines: seq<string>)
    requires |lines| >= 1 && forall i :: 0 <= i < |lines| ==> OneLine(lines[i])
    ensures Split(Join(lines)) == lines
  {
    if |lines| == 1 {
      SplitLine(lines[0], []);
      assert [lines[0]] == lines;
    } else {
      SplitJoin(lines[1..]);
      SplitLine(lines[0], Join(lines[1..]));
      assert [lines[0]] + lines[1..] == lines;
    }
  }

  // ---------------------------------------------------------------- fields

  predicate IsSpace(c: char) { SpaceCode(c as int) }

  predicate IsField(f: string) { f != [] && forall i :: 0 <= i < |f| ==> !IsSpace(f[i]) }

  predicate AllFields(fields: seq<string>) { forall i :: 0 <= i < |fields| ==> IsField(fields[i]) }

  function NonEmpty(word: string): seq<string> { if word == [] then [] else [word] }

  /** The fields of `s` when `word` has been read of the first. */
  function FieldsFrom(word: string, s: string): seq<string>
    decreases |s|
  {
    if s == [] then NonEmpty(word)
    else if IsSpace(s[0]) then NonEmpty(word) + FieldsFrom([], s[1..])
    else FieldsFrom(word + [s[0]], s[1..])
  }

  /** `strings.Fields(s)` */
  function Fields(s: string): seq<string> { FieldsFrom([], s) }

  /** `strings.Join(fields, " ")` */
  function JoinFields(fields: seq<string>): string {
    if fields == [] then [] else if |fields| == 1 then fields[0] else fields[0] + " " + JoinFields(fields[1..])
  }

  predicate NoSpaces(s: string) { forall i :: 0 <= i < |s| ==> !IsSpace(s[i]) }

  lemma {:induction false} FieldsAreFields(word: string, s: string)
    requires NoSpaces(word)
    ensures AllFields(FieldsFrom(word, s))
    decreases |s|
  {
    hide IsSpace;
    if s != [] {
      if IsSpace(s[0]) {
        FieldsAreFields([], s[1..]);
      } else {
        FieldsAreFields(word + [s[0]], s[1..]);
      }
    }
  }

  lemma {:induction false} ReadWord(word: string, f: string, rest: string)
    requires NoSpaces(f)
    ensures FieldsFrom(word, f + rest) == FieldsFrom(word + f, rest)
    decreases |f|
  {
    hide IsSpace;
    if f == [] {
      assert f + rest == rest && word + f == word;
    } else {
      assert (f + rest)[1..] == f[1..] + rest;
      ReadWord(word + [f[0]], f[1..], rest);
      assert word + [f[0]] + f[1..] == word + f;
    }
  }

  lemma {:induction false} FieldsJoin(fields: seq<string>)
    requires AllFields(fields)
    ensures Fields(JoinFields(fields)) == fields
  {
    hide IsSpace;
    if fields != [] {
      var f := fields[0];
      assert IsField(f);
      if |fields| == 1 {
        ReadWord([], f, []);
        assert f + [] == f && [] + f == f && [f] == fields;
      } else {
        FieldsJoin(fields[1..]);
        var rest := " " + JoinFields(fields[1..]);
        assert f + " " + JoinFields(fields[1..]) == f + rest;
        ReadWord([], f, rest);
        Blank();
        assert [] + f == f && rest[1..] == JoinFields(fields[1..]);
        assert [f] + fields[1..] == fields;
      }
    }
  }

  lemma Blank()
    ensures IsSpace(' ') && IsSpace('\n') && IsSpace('\r')
  {}

  // ---------------------------------------------------------------- numbers

  function Digit(d: nat): char
    requires d < 10
  {
    '0' + d as char
  }

  /** `strconv.Itoa(n)` */
  function Itoa(n: int): string
    decreases if n < 0 then 1 - n else n
  {
    if n < 0 then "-" + Itoa(-n) else if n < 10 then [Digit(n)] else Itoa(n / 10) + [Digit(n % 10)]
  }

  function DigitsValue(s: string): int {
    if s == [] then 0 else 10 * DigitsValue(s[..|s| - 1]) + (s[|s| - 1] as int - '0' as int)
  }

  /** The decimal digits of a port stand for that port. */
  lemma {:induction false} ItoaIsDecimal(n: nat)
    ensures DigitsValue(Itoa(n)) == n
    ensures forall i :: 0 <= i < |Itoa(n)| ==> '0' <= Itoa(n)[i] <= '9'
    ensures Itoa(n) != [] && (n > 0 ==> Itoa(n)[0] != '0' && Itoa(0 - n) == ['-'] + Itoa(n))
  {
    if n >= 10 {
      ItoaIsDecimal(n / 10);
      assert Itoa(n)[..|Itoa(n)| - 1] == Itoa(n / 10);
    } else {
      assert [Digit(n)][..0] == [];
    }
  }

  lemma {:induction false} ItoaIsField(n: int)
    ensures IsField(Itoa(n))
    decreases if n < 0 then 1 - n else n
  {
    if n < 0 { ItoaIsField(-n); } else if n >= 10 { ItoaIsField(n / 10); }
  }

  // ---------------------------------------------------------------- the rewrite

  const CANDIDATE: string := "a=candidate:"

  function TrimReturn(line: string): string {
    if line != [] && line[|line| - 1] == '\r' then line[..|line| - 1] else line
  }

  predicate EndsInReturn(line: string) { line != [] && line[|line| - 1] == '\r' }

  predicate IsHost(line: string) {
    var trimmed := TrimReturn(line);
    var fields := Fields(trimmed);
    CANDIDATE <= trimmed && |fields| >= 8 && fields[6] == "typ" && fields[7] == "host"
  }

  function RewriteLine(line: string, port: int): string {
    if !IsHost(line) then line
    else JoinFields(Fields(TrimReturn(line))[5 := Itoa(port)]) + if EndsInReturn(line) then "\r" else ""
  }

  function RewriteLines(lines: seq<string>, port: int): seq<string> {
    seq(|lines|, i requires 0 <= i < |lines| => RewriteLine(lines[i], port))
  }

  predicate AnyHost(lines: seq<string>) { exists i :: 0 <= i < |lines| && IsHost(lines[i]) }

  function Rewrite(sdp: string, port: int): string {
    if AnyHost(Split(sdp)) then Join(RewriteLines(Split(sdp), port)) else sdp
  }

  // ---------------------------------------------------------------- one line

  /** The first field of a candidate line still begins with the attribute's name. */
  lemma CandidateField(trimmed: string)
    requires CANDIDATE <= trimmed
    ensures |Fields(trimmed)| >= 1 && CANDIDATE <= Fields(trimmed)[0]
  {
    CandidateHasNoSpaces();
    var rest := trimmed[|CANDIDATE|..];
    assert trimmed == CANDIDATE + rest && [] + CANDIDATE == CANDIDATE;
    ReadWord([], CANDIDATE, rest);
    FirstFieldGrows(CANDIDATE, rest);
  }

  lemma CandidateHasNoSpaces()
    ensures NoSpaces(CANDIDATE) && OneLine(CANDIDATE)
  {}

  lemma {:induction false} FirstFieldGrows(word: string, s: string)
    requires word != []
    ensures |FieldsFrom(word, s)| >= 1 && word <= FieldsFrom(word, s)[0]
    decreases |s|
  {
    hide IsSpace;
    if s != [] && !IsSpace(s[0]) { FirstFieldGrows(word + [s[0]], s[1..]); }
  }

  lemma {:induction false} JoinStartsWithFirst(fields: seq<string>)
    requires fields != []
    ensures fields[0] <= JoinFields(fields)
  {}

  lemma {:induction false} JoinEnds(fields: seq<string>)
    requires fields != [] && AllFields(fields)
    ensures JoinFields(fields) != [] && !IsSpace(JoinFields(fields)[|JoinFields(fields)| - 1])
    ensures forall i :: 0 <= i < |JoinFields(fields)| ==> JoinFields(fields)[i] != '\n'
  {
    hide IsSpace;
    Blank();
    assert IsField(fields[0]);
    if |fields| > 1 { JoinEnds(fields[1..]); }
  }

  /** The fields a rewritten host line is made of. */
  function NewFields(line: string, port: int): (fields: seq<string>)
    requires IsHost(line)
  {
    Fields(TrimReturn(line))[5 := Itoa(port)]
  }

  lemma NewFieldsAreFields(line: string, port: int)
    requires IsHost(line)
    ensures AllFields(NewFields(line, port)) && |NewFields(line, port)| >= 8
  {
    FieldsAreFields([], TrimReturn(line));
    ItoaIsField(port);
  }

  /** A rewritten host line reads as its new fields, keeps its carriage return and is a host line again. */
  lemma RewrittenHost(line: string, port: int)
    requires IsHost(line)
    ensures var after := RewriteLine(line, port);
            && IsHost(after)
            && Fields(TrimReturn(after)) == NewFields(line, port)
            && EndsInReturn(after) == EndsInReturn(line)
            && OneLine(after)
  {
    var fields := NewFields(line, port);
    NewFieldsAreFields(line, port);
    CandidateField(TrimReturn(line));
    hide IsSpace, AllFields, Fields;
    FieldsJoin(fields);
    JoinEnds(fields);
    JoinStartsWithFirst(fields);
    Blank();
    var joined := JoinFields(fields);
    assert joined[|joined| - 1] != '\r';
    if EndsInReturn(line) {
      assert (joined + "\r")[..|joined|] == joined;
    } else {
      assert joined + "" == joined;
    }
  }

  /**
   A line put together from fields, with or without a carriage return: it is rewritten if and only
   if it begins with "a=candidate:" and has at least eight fields, the seventh "typ" and the
   eighth "host"; the sixth is then the port.
   */
  lemma BuiltLine(fields: seq<string>, ending: string, port: nat)
    requires fields != [] && AllFields(fields) && (ending == "" || ending == "\r")
    ensures RewriteLine(JoinFields(fields) + ending, port) ==
            if "a=candidate:" <= fields[0] && |fields| >= 8 && fields[6] == "typ" && fields[7] == "host"
            then JoinFields(fields[5 := Itoa(port)]) + ending
            else JoinFields(fields) + ending
  {
    var joined, line := JoinFields(fields), JoinFields(fields) + ending;
    JoinEnds(fields);
    Blank();
    assert joined[|joined| - 1] != '\r';
    assert TrimReturn(line) == joined by { if ending == "\r" { assert line[..|joined|] == joined; } }
    FieldsJoin(fields);
    assert "a=candidate:" <= joined <==> "a=candidate:" <= fields[0] by { FirstFieldBegins(fields); }
    hide Fields, JoinFields;
    assert joined + "" == joined;
  }

  /** The attribute's name has no blank, so it stands in the first field or nowhere. */
  lemma FirstFieldBegins(fields: seq<string>)
    requires fields != [] && AllFields(fields)
    ensures "a=candidate:" <= JoinFields(fields) <==> "a=candidate:" <= fields[0]
  {
    var joined := JoinFields(fields);
    JoinStartsWithFirst(fields);
    if "a=candidate:" <= joined {
      CandidateField(joined);
      FieldsJoin(fields);
    }
  }

  lemma RewriteLineTwice(line: string, p: int, q: int)
    ensures RewriteLine(RewriteLine(line, p), q) == RewriteLine(line, q)
  {
    if IsHost(line) {
      RewrittenHost(line, p);
      var fields := Fields(TrimReturn(line));
      assert fields[5 := Itoa(p)][5 := Itoa(q)] == fields[5 := Itoa(q)];
    }
  }

  // ---------------------------------------------------------------- the laws

  lemma SplitRewrite(sdp: string, port: int)
    ensures Split(Rewrite(sdp, port)) == RewriteLines(Split(sdp), port)
  {
    var lines := Split(sdp);
    JoinSplit(sdp);
    hide IsHost, RewriteLine;
    forall i | 0 <= i < |lines| ensures OneLine(RewriteLine(lines[i], port)) { RewrittenIsOneLine(lines[i], port); }
    if AnyHost(lines) {
      SplitJoin(RewriteLines(lines, port));
    } else {
      forall i | 0 <= i < |lines| ensures RewriteLine(lines[i], port) == lines[i] { NotHostStays(lines[i], port); }
      assert RewriteLines(lines, port) == lines;
    }
  }

  lemma RewrittenIsOneLine(line: string, port: int)
    requires OneLine(line)
    ensures OneLine(RewriteLine(line, port))
  {
    if IsHost(line) { RewrittenHost(line, port); }
  }

  lemma NotHostStays(line: string, port: int)
    ensures !IsHost(line) ==> RewriteLine(line, port) == line
  {}

  /** A host line of the result, beside the line it came from: every field but the port, the carriage return, the kind. */
  predicate OnlyThePort(before: string, after: string, port: int) {
    && IsHost(before) && IsHost(after)
    && EndsInReturn(after) == EndsInReturn(before)
    && var was := Fields(TrimReturn(before));
       var now := Fields(TrimReturn(after));
       && |now| == |was|
       && now[5] == Itoa(port)
       && forall i :: 0 <= i < |was| && i != 5 ==> now[i] == was[i]
  }

  /**
   For every description: as many lines; a host candidate's line keeps every field but the
   port; every other line is the same; with no host candidate the text is the same.
   */
  lemma RewriteLaws(sdp: string, port: int)
    ensures var before, after := Split(sdp), Split(Rewrite(sdp, port));
            && |after| == |before|
            && (forall i :: 0 <= i < |before| && IsHost(before[i]) ==> OnlyThePort(before[i], after[i], port))
            && (forall i :: 0 <= i < |before| && !IsHost(before[i]) ==> after[i] == before[i])
    ensures !AnyHost(Split(sdp)) ==> Rewrite(sdp, port) == sdp
  {
    SplitRewrite(sdp, port);
    var before := Split(sdp);
    hide OnlyThePort, IsHost, RewriteLine;
    forall i | 0 <= i < |before| && IsHost(before[i])
      ensures OnlyThePort(before[i], RewriteLine(before[i], port), port)
    {
      HostKeepsAllButPort(before[i], port);
    }
    forall i | 0 <= i < |before| && !IsHost(before[i]) ensures RewriteLine(before[i], port) == before[i] {
      NotHostStays(before[i], port);
    }
  }

  lemma HostKeepsAllButPort(line: string, port: int)
    requires IsHost(line)
    ensures OnlyThePort(line, RewriteLine(line, port), port)
  {
    RewrittenHost(line, port);
  }

  /** The last rewrite wins. */
  lemma RewriteTwice(sdp: string, p: int, q: int)
    ensures Rewrite(Rewrite(sdp, p), q) == Rewrite(sdp, q)
  {
    var lines := Split(sdp);
    SplitRewrite(sdp, p);
    SplitRewrite(Rewrite(sdp, p), q);
    SplitRewrite(sdp, q);
    hide RewriteLine, IsHost, AnyHost;
    forall i | 0 <= i < |lines|
      ensures RewriteLine(RewriteLine(lines[i], p), q) == RewriteLine(lines[i], q)
    {
      RewriteLineTwice(lines[i], p, q);
    }
    assert RewriteLines(RewriteLines(lines, p), q) == RewriteLines(lines, q);
    JoinSplit(Rewrite(Rewrite(sdp, p), q));
    JoinSplit(Rewrite(sdp, q));
  }

  // ---------------------------------------------------------------- rewriteICECandidatePort

  /** The loop's body: `host` is false where it continues. */
  method RewriteOneLine(line: string, publicPort: int) returns (host: bool, after: string)
    ensures host == IsHost(line)
    ensures after == RewriteLine(line, publicPort)
  {
    hide FieldsFrom, Itoa, JoinFields;
    var trimmed := TrimReturn(line);
    if !(CANDIDATE <= trimmed) { return false, line; }
    var fields := Fields(trimmed);
    if |fields| < 8 || fields[6] != "typ" || fields[7] != "host" { return false, line; }
    fields := fields[5 := Itoa(publicPort)];
    var ending := "";
    if EndsInReturn(line) { ending := "\r"; }
    host, after := true, JoinFields(fields) + ending;
  }

  /** `localPort` is accepted and not used. */
  method RewriteICECandidatePort(sdp: string, localPort: int, publicPort: int) returns (r: string)
    ensures r == Rewrite(sdp, publicPort)
  {
    hide IsHost, RewriteLine, Join, Split;
    var split := Split(sdp);
    var lines := new string[|split|](i requires 0 <= i < |split| => split[i]);
    var rewritten := false;
    for index := 0 to lines.Length
      invariant forall i :: 0 <= i < index ==> lines[i] == RewriteLine(split[i], publicPort)
      invariant forall i :: index <= i < lines.Length ==> lines[i] == split[i]
      invariant rewritten <==> exists i :: 0 <= i < index && IsHost(split[i])
    {
      var host, after := RewriteOneLine(lines[index], publicPort);
      if host {
        lines[index] := after;
        rewritten := true;
      } else {
        NotHostStays(lines[index], publicPort);
      }
    }
    if !rewritten { return sdp; }
    assert lines[..] == RewriteLines(split, publicPort);
    r := Join(lines[..]);
  }
}
