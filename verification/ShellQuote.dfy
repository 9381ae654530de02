/**
 Lines typed into the phone's persistent shell: quoting of arguments, and the shell's own
 reading of the whole stream of lines (sections 2.2.1, 2.2.2 and 2.3 of the Shell Command
 Language).
 */
module ShellQuote {
  import opened Options

  const NUL: char := '\0'

  // ---------------------------------------------------------------- what the shell reads

  datatype Mode = Plain | Quoted | Escaped

  /**
   `commands` are the lines completed so far, `words` the words of the current line, `word`
   the word being read. `literal` is lost for good when a character that the shell gives a
   meaning of its own is read outside quotes, or a NUL anywhere.
   */
  datatype Lexer = Lexer(commands: seq<seq<string>>, words: seq<string>, word: Option<string>, mode: Mode, literal: bool)

  const START: Lexer := Lexer([], [], None, Plain, true)

  function Append(l: Lexer, c: char): Lexer {
    l.(word := Some((if l.word.Some? then l.word.value else "") + [c]))
  }

  function EndWord(l: Lexer): Lexer {
    if l.word.Some? then l.(words := l.words + [l.word.value], word := None) else l
  }

  function EndLine(l: Lexer): Lexer {
    var e := EndWord(l);
    if e.words == [] then e else e.(commands := e.commands + [e.words], words := [])
  }

  function Read(l: Lexer, c: char): Lexer {
    if c == NUL then l.(literal := false)
    else match l.mode
      case Quoted => if c == '\'' then l.(mode := Plain) else Append(l, c)
      case Escaped => if c == '\n' then l.(mode := Plain) else Append(l, c).(mode := Plain)
      case Plain =>
        if c == '\n' then EndLine(l)
        else if c == ' ' || c == '\t' then EndWord(l)
        else if c == '\'' then l.(mode := Quoted, word := Some(if l.word.Some? then l.word.value else ""))
        else if c == '\\' then l.(mode := Escaped)
        else if 'a' <= c <= 'z' then Append(l, c)
        else l.(literal := false)
  }

  function ReadAll(l: Lexer, s: string): Lexer
    decreases |s|
  {
    if s == [] then l else ReadAll(Read(l, s[0]), s[1..])
  }

  // ---------------------------------------------------------------- what the server writes

  /** `strings.ReplaceAll(value, "'", "'\\''")` */
  function ReplaceQuotes(s: string): string {
    if s == [] then [] else (if s[0] == '\'' then "'\\''" else [s[0]]) + ReplaceQuotes(s[1..])
  }

  function QuotedArgument(s: string): string { "'" + ReplaceQuotes(s) + "'" }

  /** The arguments after a first word, each behind a blank. */
  function Tail(arguments: seq<string>): string {
    if arguments == [] then [] else Tail(arguments[..|arguments| - 1]) + " " + QuotedArgument(arguments[|arguments| - 1])
  }

  function Line(arguments: seq<string>): string {
    if arguments == [] then "input " else "input" + Tail(arguments)
  }

  function Stream(lists: seq<seq<string>>): string {
    if lists == [] then [] else Stream(lists[..|lists| - 1]) + (Line(lists[|lists| - 1]) + "\n")
  }

  function Commands(lists: seq<seq<string>>): seq<seq<string>> {
    seq(|lists|, i requires 0 <= i < |lists| => ["input"] + lists[i])
  }

  predicate NulFree(s: string) { NUL !in s }

  predicate AllNulFree(arguments: seq<string>) {
    forall i :: 0 <= i < |arguments| ==> NulFree(arguments[i])
  }

  predicate ListsNulFree(lists: seq<seq<string>>) {
    forall i :: 0 <= i < |lists| ==> AllNulFree(lists[i])
  }

  // ---------------------------------------------------------------- reading

  lemma {:induction false} ReadConcat(l: Lexer, s: string, t: string)
    ensures ReadAll(l, s + t) == ReadAll(ReadAll(l, s), t)
    decreases |s|
  {
    hide Read;
    if s == [] {
      assert s + t == t;
    } else {
      assert (s + t)[1..] == s[1..] + t;
      ReadConcat(Read(l, s[0]), s[1..], t);
    }
  }

  /** Inside quotes an argument is read back, its own quotes included. */
  lemma {:induction false} ReadReplaced(l: Lexer, s: string)
    requires l.mode.Quoted? && l.word.Some? && NulFree(s)
    ensures ReadAll(l, ReplaceQuotes(s)) == l.(word := Some(l.word.value + s))
    decreases |s|
  {
    if s == [] {
      assert l.word.value + s == l.word.value;
    } else {
      var next := l.(word := Some(l.word.value + [s[0]]));
      if s[0] == '\'' {
        ReadQuote(l);
        ReadConcat(l, "'\\''", ReplaceQuotes(s[1..]));
      } else {
        ReadConcat(l, [s[0]], ReplaceQuotes(s[1..]));
        assert [s[0]][1..] == [];
      }
      ReadReplaced(next, s[1..]);
      assert l.word.value + [s[0]] + s[1..] == l.word.value + s;
    }
  }

  lemma ReadFour(l: Lexer, c: char, d: char, e: char, f: char)
    ensures ReadAll(l, [c, d, e, f]) == Read(Read(Read(Read(l, c), d), e), f)
  {
    hide Read;
    assert [c, d, e, f][1..] == [d, e, f] && [d, e, f][1..] == [e, f] && [e, f][1..] == [f];
    assert ReadAll(l, [c, d, e, f]) == ReadAll(Read(l, c), [d, e, f]) == ReadAll(Read(Read(l, c), d), [e, f])
        == ReadAll(Read(Read(Read(l, c), d), e), [f]);
    ReadOne(Read(Read(Read(l, c), d), e), f);
  }

  lemma ReadQuote(l: Lexer)
    requires l.mode.Quoted? && l.word.Some?
    ensures ReadAll(l, "'\\''") == l.(word := Some(l.word.value + ['\'']))
  {
    hide ReadAll;
    assert "'\\''" == ['\'', '\\', '\'', '\''];
    ReadFour(l, '\'', '\\', '\'', '\'');
  }

  lemma ReadOne(l: Lexer, c: char)
    ensures ReadAll(l, [c]) == Read(l, c)
  {
    assert [c][1..] == [];
  }

  /** A blank and a quoted argument: the word before ends, the argument is the new word. */
  lemma ReadArgument(l: Lexer, s: string)
    requires l.mode.Plain? && NulFree(s)
    ensures ReadAll(l, " " + QuotedArgument(s)) == EndWord(l).(word := Some(s))
  {
    var body := ReplaceQuotes(s);
    assert " " + QuotedArgument(s) == " " + ("'" + (body + "'"));
    ReadConcat(l, " ", "'" + (body + "'"));
    ReadOne(l, ' ');
    var a := EndWord(l);
    ReadConcat(a, "'", body + "'");
    ReadOne(a, '\'');
    var b := a.(mode := Quoted, word := Some(""));
    ReadConcat(b, body, "'");
    ReadReplaced(b, s);
    assert "" + s == s;
    ReadOne(b.(word := Some(s)), '\'');
  }

  lemma TailSplit(arguments: seq<string>)
    requires arguments != []
    ensures var n := |arguments| - 1;
            Tail(arguments) == Tail(arguments[..n]) + (" " + QuotedArgument(arguments[n]))
  {
    hide QuotedArgument;
  }

  lemma {:induction false} ReadTail(l: Lexer, arguments: seq<string>)
    requires l.mode.Plain? && l.word.Some? && AllNulFree(arguments) && arguments != []
    ensures var n := |arguments| - 1;
            ReadAll(l, Tail(arguments))
              == l.(words := l.words + [l.word.value] + arguments[..n], word := Some(arguments[n]))
  {
    var n := |arguments| - 1;
    var before, last := arguments[..n], arguments[n];
    TailSplit(arguments);
    if n == 0 { assert ReadAll(l, Tail(before)) == l; }
    hide Read, ReadAll, Tail, QuotedArgument, NulFree;
    ReadConcat(l, Tail(before), " " + QuotedArgument(last));
    if n == 0 {
      ReadArgument(l, last);
      assert l.words + [l.word.value] + before == l.words + [l.word.value];
    } else {
      ReadTail(l, before);
      var m := l.(words := l.words + [l.word.value] + before[..n - 1], word := Some(before[n - 1]));
      assert ReadAll(l, Tail(before)) == m;
      ReadArgument(m, last);
      assert m.words + [before[n - 1]] == l.words + [l.word.value] + before by {
        assert before == before[..n - 1] + [before[n - 1]];
      }
    }
  }

  lemma {:induction false} ReadLetters(l: Lexer, s: string)
    requires l.mode.Plain? && l.word.Some? && forall i :: 0 <= i < |s| ==> 'a' <= s[i] <= 'z'
    ensures ReadAll(l, s) == l.(word := Some(l.word.value + s))
    decreases |s|
  {
    if s == [] {
      assert l.word.value + s == l.word.value;
    } else {
      ReadLetters(Append(l, s[0]), s[1..]);
      assert l.word.value + [s[0]] + s[1..] == l.word.value + s;
    }
  }

  lemma ReadInput(l: Lexer)
    requires l.mode.Plain? && l.word.None?
    ensures ReadAll(l, "input") == l.(word := Some("input"))
  {
    assert "input" == "i" + "nput";
    ReadConcat(l, "i", "nput");
    ReadOne(l, 'i');
    assert "" + ['i'] == "i";
    ReadLetters(l.(word := Some("i")), "nput");
  }

  /** A line is one command; up to its newline it is none. */
  lemma ReadLine(l: Lexer, arguments: seq<string>)
    requires l.mode.Plain? && l.word.None? && l.words == [] && AllNulFree(arguments)
    ensures ReadAll(l, Line(arguments) + "\n") == l.(commands := l.commands + [["input"] + arguments])
  {
    hide Read, Tail;
    ReadInput(l);
    var a := l.(word := Some("input"));
    ReadConcat(l, Line(arguments), "\n");
    if arguments == [] {
      assert "input " == "input" + " ";
      ReadConcat(l, "input", " ");
      Blank(a);
      assert l.words + ["input"] == ["input"];
      Newline(EndWord(a));
      assert ["input"] + arguments == ["input"];
    } else {
      ReadConcat(l, "input", Tail(arguments));
      ReadTail(a, arguments);
      Newline(ReadAll(a, Tail(arguments)));
      var n := |arguments| - 1;
      assert [] + ["input"] + arguments[..n] + [arguments[n]] == ["input"] + arguments;
    }
  }

  lemma Blank(l: Lexer)
    requires l.mode.Plain?
    ensures ReadAll(l, " ") == EndWord(l)
  {
    ReadOne(l, ' ');
  }

  lemma Newline(l: Lexer)
    requires l.mode.Plain?
    ensures ReadAll(l, "\n") == EndLine(l)
  {
    ReadOne(l, '\n');
  }

  lemma StreamSplit(lists: seq<seq<string>>)
    requires lists != []
    ensures var n := |lists| - 1; Stream(lists) == Stream(lists[..n]) + (Line(lists[n]) + "\n")
  {}

  lemma CommandsSplit(lists: seq<seq<string>>)
    requires lists != []
    ensures var n := |lists| - 1; Commands(lists) == Commands(lists[..n]) + [["input"] + lists[n]]
  {}

  lemma {:induction false} ReadStream(lists: seq<seq<string>>)
    requires ListsNulFree(lists)
    ensures ReadAll(START, Stream(lists)) == START.(commands := Commands(lists))
    decreases |lists|, 1
  {
    if lists == [] {
      assert Commands(lists) == [];
    } else {
      ReadNextLine(lists);
    }
  }

  lemma ReadNextLine(lists: seq<seq<string>>)
    requires lists != [] && ListsNulFree(lists)
    ensures ReadAll(START, Stream(lists)) == START.(commands := Commands(lists))
    decreases |lists|, 0
  {
    hide Line, Read, ReadAll, Stream, Commands, AllNulFree;
    var n := |lists| - 1;
    var before := lists[..n];
    assert forall i :: 0 <= i < n ==> before[i] == lists[i];
    ReadStream(before);
    StreamSplit(lists);
    CommandsSplit(lists);
    ReadConcat(START, Stream(before), Line(lists[n]) + "\n");
    ReadLine(START.(commands := Commands(before)), lists[n]);
  }

  /** The line without its newline is still one unfinished command. */
  lemma ReadUnfinished(l: Lexer, arguments: seq<string>)
    requires l.mode.Plain? && l.word.None? && AllNulFree(arguments)
    ensures ReadAll(l, Line(arguments)).commands == l.commands
  {
    hide Read, Tail;
    ReadInput(l);
    if arguments == [] {
      assert "input " == "input" + " ";
      ReadConcat(l, "input", " ");
      Blank(l.(word := Some("input")));
    } else {
      ReadConcat(l, "input", Tail(arguments));
      ReadTail(l.(word := Some("input")), arguments);
    }
  }

  lemma {:induction false} CommandsGrow(l: Lexer, s: string)
    ensures l.commands <= ReadAll(l, s).commands
    decreases |s|
  {
    if s != [] { CommandsGrow(Read(l, s[0]), s[1..]); }
  }

  /** However much of a line got through before the pipe broke, the shell has run the earlier lines and nothing else. */
  lemma PartialLineRunsNothing(lists: seq<seq<string>>, arguments: seq<string>, k: nat)
    requires AllNulFree(arguments) && ListsNulFree(lists)
    requires k <= |Line(arguments)|
    ensures ReadAll(START, Stream(lists) + Line(arguments)[..k]).commands == Commands(lists)
  {
    hide Read, Line, ReadAll, Stream, Commands, AllNulFree;
    ReadStream(lists);
    var l := START.(commands := Commands(lists));
    var front, rest := Line(arguments)[..k], Line(arguments)[k..];
    ReadConcat(START, Stream(lists), front);
    CommandsGrow(l, front);
    assert front + rest == Line(arguments);
    ReadConcat(l, front, rest);
    CommandsGrow(ReadAll(l, front), rest);
    ReadUnfinished(l, arguments);
  }

  // ---------------------------------------------------------------- exactly the NUL-free arguments

  lemma {:induction false} NulSpoils(l: Lexer, s: string)
    requires NUL in s || !l.literal
    ensures !ReadAll(l, s).literal
    decreases |s|
  {
    if s != [] { NulSpoils(Read(l, s[0]), s[1..]); }
  }

  lemma {:induction false} NulSurvivesQuoting(s: string)
    ensures NUL in ReplaceQuotes(s) <==> NUL in s
  {
    if s != [] { NulSurvivesQuoting(s[1..]); }
  }

  lemma {:induction false} NulInTail(arguments: seq<string>)
    requires !AllNulFree(arguments)
    ensures NUL in Tail(arguments)
  {
    var n := |arguments| - 1;
    NulSurvivesQuoting(arguments[n]);
    if NulFree(arguments[n]) {
      assert !AllNulFree(arguments[..n]) by {
        var i :| 0 <= i < |arguments| && !NulFree(arguments[i]);
        assert arguments[..n][i] == arguments[i];
      }
      NulInTail(arguments[..n]);
    }
  }

  lemma {:induction false} NulInStream(lists: seq<seq<string>>)
    requires exists i :: 0 <= i < |lists| && !AllNulFree(lists[i])
    ensures NUL in Stream(lists)
  {
    hide AllNulFree, Tail;
    var n := |lists| - 1;
    if AllNulFree(lists[n]) {
      var i :| 0 <= i < |lists| && !AllNulFree(lists[i]);
      assert lists[..n][i] == lists[i];
      NulInStream(lists[..n]);
    } else {
      assert lists[n] != [] by { NothingIsNulFree(lists[n]); }
      NulInTail(lists[n]);
    }
  }

  lemma NothingIsNulFree(arguments: seq<string>)
    ensures arguments == [] ==> AllNulFree(arguments)
  {}

  /**
   For every sequence of argument lists: the shell reads back exactly `input` and each list
   (empty arguments, quotes, blanks and newlines included), never giving a character a
   meaning of its own, if and only if no argument holds a NUL.
   */
  lemma QuotingRoundTrip(lists: seq<seq<string>>)
    ensures ReadAll(START, Stream(lists)).literal <==> ListsNulFree(lists)
    ensures ReadAll(START, Stream(lists)).literal ==>
              ReadAll(START, Stream(lists)) == Lexer(Commands(lists), [], None, Plain, true)
  {
    hide AllNulFree, Stream;
    if ListsNulFree(lists) {
      ReadStream(lists);
    } else {
      NulInStream(lists);
      NulSpoils(START, Stream(lists));
    }
  }

  /** A key event may carry a NUL as its one character: what the shell makes of that line is not the command. */
  lemma NulKeyIsNotRead()
    ensures !ReadAll(START, Stream([["text", [NUL]]])).literal
  {
    var lists := [["text", [NUL]]];
    assert !NulFree(lists[0][1]);
    assert !AllNulFree(lists[0]);
    QuotingRoundTrip(lists);
  }

  // ---------------------------------------------------------------- adbInputShellLine

  /** `strings.Join(parts, " ")` */
  function Join(parts: seq<string>): string {
    if parts == [] then ""
    else if |parts| == 1 then parts[0]
    else Join(parts[..|parts| - 1]) + " " + parts[|parts| - 1]
  }

  function AllQuoted(arguments: seq<string>): seq<string> {
    seq(|arguments|, i requires 0 <= i < |arguments| => QuotedArgument(arguments[i]))
  }

  lemma {:induction false} JoinIsTail(arguments: seq<string>)
    requires arguments != []
    ensures " " + Join(AllQuoted(arguments)) == Tail(arguments)
  {
    hide QuotedArgument;
    var n := |arguments| - 1;
    var quoted := AllQuoted(arguments);
    assert quoted[..n] == AllQuoted(arguments[..n]);
    if n > 0 {
      JoinIsTail(arguments[..n]);
      assert " " + (Join(quoted[..n]) + " " + quoted[n]) == " " + Join(quoted[..n]) + " " + quoted[n];
    } else {
      assert Tail(arguments[..0]) + " " + quoted[0] == " " + quoted[0];
    }
  }

  method AdbInputShellLine(arguments: seq<string>) returns (line: string)
    ensures line == Line(arguments)
  {
    hide QuotedArgument;
    var quoted: seq<string> := [];
    for i := 0 to |arguments|
      invariant quoted == AllQuoted(arguments[..i])
    {
      quoted := quoted + [QuotedArgument(arguments[i])];
    }
    assert arguments[..|arguments|] == arguments;
    line := "input " + Join(quoted);
    if arguments == [] {
      assert "input " + "" == "input ";
    } else {
      JoinIsTail(arguments);
      assert "input " == "input" + " ";
      assert "input" + " " + Join(quoted) == "input" + (" " + Join(quoted));
    }
  }

  /** An argument without and with a quote, as they go over the wire. */
  lemma ArgumentsInFull()
    ensures QuotedArgument("tap") == "'tap'"
    ensures QuotedArgument("it's") == "'it'\\''s'"
  {
    PlainStays("tap");
    QuoteInside();
  }

  lemma {:induction false} PlainStays(s: string)
    requires '\'' !in s
    ensures ReplaceQuotes(s) == s
  {
    if s != [] {
      PlainStays(s[1..]);
      assert s == [s[0]] + s[1..];
    }
  }

  lemma QuoteInside()
    ensures ReplaceQuotes("it's") == "it'\\''s"
  {
    assert "it's"[1..] == "t's" && "t's"[1..] == "'s" && "'s"[1..] == "s";
    PlainStays("s");
    assert ReplaceQuotes("'s") == "'\\''" + "s";
    assert ReplaceQuotes("t's") == "t" + ("'\\''" + "s");
  }

  /** The words of a line are parted by one blank each. */
  lemma TwoArguments(a: string, b: string)
    ensures Line([a, b]) == "input " + QuotedArgument(a) + " " + QuotedArgument(b)
  {
    hide QuotedArgument;
    assert [a, b][..1] == [a] && [a][..0] == [];
    assert Tail([a]) == [] + " " + QuotedArgument(a) == " " + QuotedArgument(a);
    assert Tail([a, b]) == Tail([a]) + " " + QuotedArgument(b);
    assert "input " == "input" + " ";
    assert "input" + (" " + QuotedArgument(a) + " " + QuotedArgument(b)) == "input " + QuotedArgument(a) + " " + QuotedArgument(b);
  }

  lemma ThreeArguments(a: string, b: string, c: string)
    ensures Line([a, b, c]) == "input " + QuotedArgument(a) + " " + QuotedArgument(b) + " " + QuotedArgument(c)
  {
    TwoArguments(a, b);
    hide QuotedArgument;
    assert [a, b, c][..2] == [a, b];
    assert "input" + (Tail([a, b]) + " " + QuotedArgument(c)) == "input" + Tail([a, b]) + " " + QuotedArgument(c);
  }

  // ---------------------------------------------------------------- the controller

  /**
   What would happen in one attempt: whether a shell that is not running can be started, and
   after how many characters the write breaks off, if it does.
   */
  datatype Attempt = Attempt(starts: bool, breaksAfter: Option<nat>)

  /**
   `running` says whether command and stdin are set; `stdin` is what the live shell has been
   given, `killed` what each earlier shell had been given when its pipe broke. The ghost
   `sent` lists what went to the live shell, `direct` what was run by separate adb calls.
   */
  class ControlShell {
    var running: bool
    var stdin: string
    var killed: seq<string>
    ghost var sent: seq<seq<string>>
    ghost var direct: seq<seq<string>>

    ghost predicate Valid()
      reads this
    {
      stdin == Stream(sent) && (!running ==> sent == [])
    }

    constructor ()
      ensures Valid() && !running && sent == [] && direct == [] && killed == []
    {
      running, stdin, killed, sent, direct := false, "", [], [], [];
    }

    method StartLocked(attempt: Attempt) returns (err: bool)
      requires Valid()
      modifies this
      ensures Valid() && sent == old(sent) && direct == old(direct) && killed == old(killed)
      ensures err == (!old(running) && !attempt.starts)
      ensures !err ==> running
    {
      if running { return false; }
      if !attempt.starts { return true; }
      running := true;
      err := false;
    }

    method StopLocked()
      requires running
      modifies this
      ensures Valid() && !running && sent == [] && direct == old(direct)
      ensures killed == old(killed) + [old(stdin)]
    {
      killed := killed + [stdin];
      running, stdin, sent := false, "", [];
    }

    /** `io.WriteString(stdin, line + "\n")`; on an error a part of it has been written. */
    method WriteString(line: string, ghost arguments: seq<string>, attempt: Attempt) returns (err: bool)
      requires Valid() && running && line == Line(arguments)
      modifies this`stdin, this`sent
      ensures err == attempt.breaksAfter.Some?
      ensures !err ==> Valid() && sent == old(sent) + [arguments]
      ensures err ==> sent == old(sent)
      ensures err && AllNulFree(arguments) && ListsNulFree(sent) ==> ReadAll(START, stdin).commands == Commands(sent)
    {
      hide AllNulFree, ListsNulFree, Line, ReadAll, Commands;
      err := attempt.breaksAfter.Some?;
      if err {
        var k := attempt.breaksAfter.value;
        var written := if k <= |line| then k else |line|;
        if AllNulFree(arguments) && ListsNulFree(sent) { PartialLineRunsNothing(sent, arguments, written); }
        stdin := stdin + line[..written];
      } else {
        StreamGrows(sent, arguments);
        stdin := stdin + (line + "\n");
        sent := sent + [arguments];
      }
    }

    /**
     `input`: whatever fails, the arguments are delivered exactly once as a whole line, to the
     live shell, or to a direct call if neither of two attempts gets them through; a shell that
     cannot be started ends the attempts at once. Without a NUL among them and what the shell was sent before,
     a killed shell has run none of them.
     */
    method Input(arguments: seq<string>, attempts: seq<Attempt>)
      requires Valid() && |attempts| == 2
      modifies this
      ensures Valid() && old(killed) <= killed
      ensures var first := (old(running) || attempts[0].starts) && attempts[0].breaksAfter.None?;
              var second := attempts[1].starts && attempts[1].breaksAfter.None?;
              var fallsBack := !first && (!second || !(old(running) || attempts[0].starts));
              && direct == old(direct) + (if fallsBack then [arguments] else [])
              && (fallsBack ==> sent == old(sent) || sent == [])
              && (!fallsBack ==> running && (sent == old(sent) + [arguments] || sent == [arguments]))
      ensures AllNulFree(arguments) && ListsNulFree(old(sent)) ==>
                forall i :: |old(killed)| <= i < |killed| ==> RanNothingNew(killed[i], old(sent))
    {
      hide AllNulFree, Line, ReadAll, Stream, RanNothingNew;
      var line := AdbInputShellLine(arguments);
      var attempt := 0;
      while attempt < 2
        invariant 0 <= attempt <= 2 && Valid() && direct == old(direct)
        invariant attempt == 0 ==> running == old(running)
        invariant attempt > 0 ==> !running && (old(running) || attempts[0].starts) && attempts[0].breaksAfter.Some?
        invariant attempt == 2 ==> attempts[1].breaksAfter.Some?
        invariant sent == old(sent) || sent == []
        invariant old(killed) <= killed
        invariant AllNulFree(arguments) && ListsNulFree(old(sent)) ==>
          forall i :: |old(killed)| <= i < |killed| ==> RanNothingNew(killed[i], old(sent))
      {
        var err := StartLocked(attempts[attempt]);
        if err { break; }
        ghost var before := sent;
        err := WriteString(line, arguments, attempts[attempt]);
        if !err {
          assert [] + [arguments] == [arguments];
          return;
        }
        if AllNulFree(arguments) && ListsNulFree(old(sent)) { RanBefore(stdin, before, old(sent)); }
        StopLocked();
        attempt := attempt + 1;
      }
      direct := direct + [arguments];
    }
  }

  /** A shell given `stdin` has run the lists sent earlier, or none if it was started since. */
  predicate RanNothingNew(stdin: string, earlier: seq<seq<string>>) {
    ReadAll(START, stdin).commands == Commands(earlier) || ReadAll(START, stdin).commands == []
  }

  lemma RanBefore(stdin: string, sent: seq<seq<string>>, earlier: seq<seq<string>>)
    requires ReadAll(START, stdin).commands == Commands(sent) && (sent == earlier || sent == [])
    ensures RanNothingNew(stdin, earlier)
  {}

  /** What the live shell has run: exactly what was sent to it, in order, if and only if no NUL was among it. */
  lemma LiveShellRan(shell: ControlShell)
    requires shell.Valid()
    ensures ReadAll(START, shell.stdin).literal <==> ListsNulFree(shell.sent)
    ensures ListsNulFree(shell.sent) ==> ReadAll(START, shell.stdin) == START.(commands := Commands(shell.sent))
  {
    QuotingRoundTrip(shell.sent);
  }

  lemma StreamGrows(lists: seq<seq<string>>, arguments: seq<string>)
    ensures Stream(lists + [arguments]) == Stream(lists) + (Line(arguments) + "\n")
  {
    hide Line, Stream;
    assert (lists + [arguments])[..|lists|] == lists;
    StreamSplit(lists + [arguments]);
  }
}
