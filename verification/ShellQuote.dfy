/**
 Shell quoting and the takeover line (internal/agent/executor.go, shellSingleQuote and
 InteractiveResumeCommandLine; internal/agent/adapter.go), against a lexer after the
 POSIX.1-2017 Shell Command Language: quotes and backslashes (section 2.2), blanks,
 newlines and operators (section 2.3).  A word that the shell will go on to expand is
 marked as such.
 */
module ShellQuote {
  import opened Texts
  import opened Wrappers

  /** Operators other than "&&" are given one character at a time. */
  datatype Lexeme = Word(text: string, expands: bool) | Operator(text: string)

  type Lexemes = Option<seq<Lexeme>>

  /** The word begun so far. */
  datatype Part = Part(text: string, expands: bool)

  // ---------------------------------------------------------------------------
  // The shell
  // ---------------------------------------------------------------------------

  /** A command substitution, a braced expansion, a here-document or a comment begins: the lexer gives no answer. */
  predicate GivesUp(s: string, word: Option<Part>)
    requires s != ""
  {
    s[0] == '`' || (s[0] == '#' && word.None?)
    || (|s| >= 2 && ((s[0] == '$' && s[1] in "({'\"") || (s[0] == '<' && s[1] == '<')))
  }

  /** The operator that begins here, or nothing. */
  function OperatorAt(s: string): (op: string)
    requires s != ""
    ensures |op| <= |s| && (op != "" <==> s[0] in "\n;|()<>&")
  {
    if s[0] in "\n;|()<>" then [s[0]]
    else if s[0] == '&' then if |s| >= 2 && s[1] == '&' then "&&" else "&"
    else ""
  }

  /** Unquoted, these may make the shell expand the word. */
  predicate Expands(c: char) {
    c in "$~*?[]{}!"
  }

  function Emit(word: Option<Part>, rest: Lexemes): Lexemes {
    match rest
    case None => None
    case Some(more) => if word.None? then rest else Some([Word(word.value.text, word.value.expands)] + more)
  }

  function Prepend(x: Lexeme, rest: Lexemes): Lexemes {
    match rest
    case None => None
    case Some(more) => Some([x] + more)
  }

  function Begin(word: Option<Part>): Part {
    if word.None? then Part("", false) else word.value
  }

  function Add(word: Part, c: char, expands: bool): Part {
    Part(word.text + [c], word.expands || expands)
  }

  function Grow(word: Option<Part>, c: char, expands: bool): Option<Part> {
    Some(Add(Begin(word), c, expands))
  }

  /** Outside quotes. */
  function Lex(s: string, word: Option<Part>): Lexemes
    decreases |s|
  {
    if s == "" then Emit(word, Some([]))
    else if s[0] == '\'' then Quoted(s[1..], Begin(word))
    else if s[0] == '"' then DoubleQuoted(s[1..], Begin(word))
    else if s[0] == '\\' then
      if |s| < 2 then None
      else if s[1] == '\n' then Lex(s[2..], word)
      else Lex(s[2..], Grow(word, s[1], false))
    else if s[0] == ' ' || s[0] == '\t' then Emit(word, Lex(s[1..], None))
    else if GivesUp(s, word) then None
    else if OperatorAt(s) != "" then Emit(word, Prepend(Operator(OperatorAt(s)), Lex(s[|OperatorAt(s)|..], None)))
    else Lex(s[1..], Grow(word, s[0], Expands(s[0])))
  }

  /** Inside single quotes: everything up to the next one is literal. */
  function Quoted(s: string, word: Part): Lexemes
    decreases |s|
  {
    if s == "" then None
    else if s[0] == '\'' then Lex(s[1..], Some(word))
    else Quoted(s[1..], Add(word, s[0], false))
  }

  /** Inside double quotes a dollar sign expands, and a backslash quotes only what is special there. */
  function DoubleQuoted(s: string, word: Part): Lexemes
    decreases |s|
  {
    if s == "" then None
    else if s[0] == '"' then Lex(s[1..], Some(word))
    else if s[0] == '\\' && |s| >= 2 && s[1] == '\n' then DoubleQuoted(s[2..], word)
    else if s[0] == '\\' && |s| >= 2 && s[1] in "$`\"\\" then DoubleQuoted(s[2..], Add(word, s[1], false))
    else if s[0] == '`' || (s[0] == '$' && |s| >= 2 && s[1] in "({") then None
    else DoubleQuoted(s[1..], Add(word, s[0], s[0] == '$'))
  }

  // ---------------------------------------------------------------------------
  // The printer
  // ---------------------------------------------------------------------------

  predicate NeedsQuotes(c: char) {
    c in " \t\n'\"\\$`&|;<>()*?[]{}#~!"
  }

  predicate Plain(s: string) {
    forall i :: 0 <= i < |s| ==> !NeedsQuotes(s[i])
  }

  /** Each quote becomes a closing quote, an escaped quote and an opening one. */
  function Escape(s: string): string {
    if s == "" then "" else EscapeChar(s[0]) + Escape(s[1..])
  }

  function ShellSingleQuote(s: string): string {
    if s == "" then "''"
    else if Plain(s) then s
    else "'" + Escape(s) + "'"
  }

  // ---------------------------------------------------------------------------
  // Printing and lexing undo each other
  // ---------------------------------------------------------------------------

  function EscapeChar(c: char): string {
    if c == '\'' then "'\\''" else [c]
  }

  /** A word read literally, as far as it has got. */
  function Literal(s: string): Option<Part> {
    Some(Part(s, false))
  }

  /** One escaped character, read inside quotes, adds itself. */
  lemma QuoteStep(c: char, tail: string, word: Part)
    ensures Quoted(EscapeChar(c) + tail, word) == Quoted(tail, Add(word, c, false))
  {
    var s := EscapeChar(c) + tail;
    if c == '\'' {
      var t := s[1..];
      assert t[0] == '\\' && t[1] == '\'' && t[2] == '\'' && t[3..] == tail;
      assert t[2..][0] == '\'' && t[2..][1..] == tail;
      assert Lex(t, Some(word)) == Lex(t[2..], Some(Add(word, c, false)));
    } else {
      assert s[0] == c && s[1..] == tail;
    }
  }

  lemma {:induction false} EscapedIsLiteral(s: string, tail: string, front: string)
    ensures Quoted(Escape(s) + ("'" + tail), Part(front, false)) == Lex(tail, Literal(front + s))
    decreases |s|
  {
    hide Lex;
    var close := "'" + tail;
    if s == "" {
      assert Escape(s) + close == close && close[1..] == tail && front + s == front;
    } else {
      EscapedIsLiteral(s[1..], tail, front + [s[0]]);
      assert front + [s[0]] + s[1..] == front + s;
      EscapeFront(s, close);
      hide Quoted, Escape;
      QuoteStep(s[0], Escape(s[1..]) + close, Part(front, false));
    }
  }

  lemma EscapeFront(s: string, close: string)
    requires s != ""
    ensures Escape(s) + close == EscapeChar(s[0]) + (Escape(s[1..]) + close)
  {
  }

  /** A character that needs no quotes adds itself. */
  lemma PlainStep(c: char, tail: string, word: Option<Part>)
    requires !NeedsQuotes(c)
    ensures Lex([c] + tail, word) == Lex(tail, Grow(word, c, false))
  {
    var all := [c] + tail;
    assert all[0] == c && all[1..] == tail;
  }

  lemma {:induction false} PlainIsLiteral(s: string, tail: string, front: string)
    requires Plain(s)
    ensures Lex(s + tail, Literal(front)) == Lex(tail, Literal(front + s))
    decreases |s|
  {
    hide Lex, NeedsQuotes;
    if s == "" {
      assert s + tail == tail && front + s == front;
    } else {
      assert s + tail == [s[0]] + (s[1..] + tail);
      PlainStep(s[0], s[1..] + tail, Literal(front));
      PlainIsLiteral(s[1..], tail, front + [s[0]]);
      assert front + [s[0]] + s[1..] == front + s;
    }
  }

  lemma EmptyQuoted(tail: string)
    ensures Lex("''" + tail, None) == Lex(tail, Literal(""))
  {
    var all := "''" + tail;
    assert all[0] == '\'' && all[1..][0] == '\'' && all[1..][1..] == tail;
    assert Lex(all, None) == Quoted(all[1..], Part("", false));
  }

  lemma PlainStart(s: string, tail: string)
    requires s != "" && Plain(s)
    ensures Lex(s + tail, None) == Lex(tail, Literal(s))
  {
    hide Lex, NeedsQuotes;
    assert s + tail == [s[0]] + (s[1..] + tail);
    PlainStep(s[0], s[1..] + tail, None);
    PlainIsLiteral(s[1..], tail, [s[0]]);
    assert [s[0]] + s[1..] == s && "" + [s[0]] == [s[0]];
  }

  lemma QuotedStart(s: string, tail: string)
    ensures Lex("'" + Escape(s) + "'" + tail, None) == Lex(tail, Literal(s))
  {
    var all := "'" + Escape(s) + "'" + tail;
    assert all[0] == '\'' && all[1..] == Escape(s) + ("'" + tail);
    assert Lex(all, None) == Quoted(all[1..], Part("", false));
    EscapedIsLiteral(s, tail, "");
    assert "" + s == s;
  }

  /** Whatever follows, a quoted string is read as that string, begun as a word and not to be expanded. */
  lemma QuotedStringStartsAWord(s: string, tail: string)
    ensures Lex(ShellSingleQuote(s) + tail, None) == Lex(tail, Literal(s))
  {
    hide Lex, Escape;
    if s == "" {
      EmptyQuoted(tail);
    } else if Plain(s) {
      PlainStart(s, tail);
    } else {
      QuotedStart(s, tail);
    }
  }

  /** A word that the shell takes as it stands. */
  function Verbatim(text: string): Lexeme {
    Word(text, false)
  }

  /** For every string, lexing its quoted form gives exactly one word, that string, taken literally. */
  lemma QuotingRoundTrip(s: string)
    ensures Lex(ShellSingleQuote(s), None) == Some([Verbatim(s)])
  {
    QuotedStringStartsAWord(s, "");
    assert ShellSingleQuote(s) + "" == ShellSingleQuote(s);
    assert [Verbatim(s)] + [] == [Verbatim(s)];
  }

  /** A string is left as it is exactly when it is not empty and has no character that the shell treats specially. */
  lemma QuotedOnlyIfNeeded(s: string)
    ensures ShellSingleQuote(s) == s <==> s != "" && forall c :: c in s ==> c !in " \t\n'\"\\$`&|;<>()*?[]{}#~!"
  {
    EscapeIsLonger(s);
    assert forall i :: 0 <= i < |s| ==> s[i] in s;
  }

  lemma {:induction false} EscapeIsLonger(s: string)
    ensures |Escape(s)| >= |s|
  {
    if s != "" {
      EscapeIsLonger(s[1..]);
    }
  }

  // ---------------------------------------------------------------------------
  // The takeover line
  // ---------------------------------------------------------------------------

  function Join(a: Lexemes, b: Lexemes): Lexemes {
    if a.None? || b.None? then None else Some(a.value + b.value)
  }

  lemma EmitJoin(word: Option<Part>, rest: Lexemes, b: Lexemes)
    ensures Emit(word, Join(rest, b)) == Join(Emit(word, rest), b)
    ensures forall x :: Prepend(x, Join(rest, b)) == Join(Prepend(x, rest), b)
  {
    if rest.Some? && b.Some? && word.Some? {
      var w := Word(word.value.text, word.value.expands);
      assert [w] + (rest.value + b.value) == [w] + rest.value + b.value;
    }
    forall x
      ensures Prepend(x, Join(rest, b)) == Join(Prepend(x, rest), b)
    {
      if rest.Some? && b.Some? {
        assert [x] + (rest.value + b.value) == [x] + rest.value + b.value;
      }
    }
  }

  lemma CutFront(s: string, tail: string, n: nat)
    requires n <= |s|
    ensures (s + tail)[n..] == s[n..] + tail
  {
  }

  /** A blank behind a text changes neither where the lexer gives up nor which operator it sees. */
  lemma SameFront(s: string, word: Option<Part>, rest: string)
    requires s != ""
    ensures var all := s + (" " + rest);
            all[0] == s[0] && GivesUp(all, word) == GivesUp(s, word) && OperatorAt(all) == OperatorAt(s)
  {
    var all := s + (" " + rest);
    assert all[0] == s[0] && all[1] == if |s| >= 2 then s[1] else ' ';
  }

  /** A text that lexes on its own, then a blank, then more: the lexemes of both in turn. */
  lemma {:induction false} BlankSeparates(s: string, word: Option<Part>, rest: string)
    requires Lex(s, word).Some?
    ensures Lex(s + (" " + rest), word) == Join(Lex(s, word), Lex(rest, None))
    decreases |s|
  {
    var tail := " " + rest;
    if s == "" {
      BlankFirst(word, rest);
    } else {
      SameFront(s, word, rest);
      CutFront(s, tail, 1);
      if s[0] == '\'' {
        BlankAfterQuoted(s[1..], Begin(word), rest);
      } else if s[0] == '"' {
        BlankAfterDoubleQuoted(s[1..], Begin(word), rest);
      } else if s[0] == '\\' {
        CutFront(s, tail, 2);
        BlankSeparates(s[2..], if s[1] == '\n' then word else Grow(word, s[1], false), rest);
      } else if s[0] == ' ' || s[0] == '\t' {
        BlankSeparates(s[1..], None, rest);
        EmitJoin(word, Lex(s[1..], None), Lex(rest, None));
      } else if OperatorAt(s) != "" {
        var op := OperatorAt(s);
        CutFront(s, tail, |op|);
        BlankSeparates(s[|op|..], None, rest);
        EmitJoin(None, Lex(s[|op|..], None), Lex(rest, None));
        EmitJoin(word, Prepend(Operator(op), Lex(s[|op|..], None)), Lex(rest, None));
      } else {
        BlankSeparates(s[1..], Grow(word, s[0], Expands(s[0])), rest);
      }
    }
  }

  lemma BlankFirst(word: Option<Part>, rest: string)
    ensures Lex("" + (" " + rest), word) == Join(Lex("", word), Lex(rest, None))
  {
    var all := "" + (" " + rest);
    assert all[0] == ' ' && all[1..] == rest;
    EmitJoin(word, Some([]), Lex(rest, None));
    if Lex(rest, None).Some? {
      assert [] + Lex(rest, None).value == Lex(rest, None).value;
    }
  }

  lemma {:induction false} BlankAfterQuoted(s: string, word: Part, rest: string)
    requires Quoted(s, word).Some?
    ensures Quoted(s + (" " + rest), word) == Join(Quoted(s, word), Lex(rest, None))
    decreases |s|
  {
    CutFront(s, " " + rest, 1);
    if s[0] == '\'' {
      BlankSeparates(s[1..], Some(word), rest);
    } else {
      BlankAfterQuoted(s[1..], Add(word, s[0], false), rest);
    }
  }

  lemma {:induction false} BlankAfterDoubleQuoted(s: string, word: Part, rest: string)
    requires DoubleQuoted(s, word).Some?
    ensures DoubleQuoted(s + (" " + rest), word) == Join(DoubleQuoted(s, word), Lex(rest, None))
    decreases |s|
  {
    hide Lex, Emit, Join;
    var tail := " " + rest;
    CutFront(s, tail, 1);
    if s[0] == '"' {
      BlankSeparates(s[1..], Some(word), rest);
    } else if s[0] == '\\' && |s| >= 2 && s[1] == '\n' {
      CutFront(s, tail, 2);
      BlankAfterDoubleQuoted(s[2..], word, rest);
    } else if s[0] == '\\' && |s| >= 2 && s[1] in "$`\"\\" {
      CutFront(s, tail, 2);
      BlankAfterDoubleQuoted(s[2..], Add(word, s[1], false), rest);
    } else {
      BlankAfterDoubleQuoted(s[1..], Add(word, s[0], s[0] == '$'), rest);
    }
  }

  /** A quoted string, a blank, and more. */
  lemma QuotedThenBlank(s: string, rest: string)
    ensures Lex(ShellSingleQuote(s) + (" " + rest), None) == Prepend(Verbatim(s), Lex(rest, None))
  {
    QuotedStringStartsAWord(s, " " + rest);
    assert (" " + rest)[1..] == rest;
  }

  datatype Vendor = ClaudeCode | Codex(effort: Option<string>) | NoTakeover

  /** strings.Join with one blank. */
  function JoinWords(words: seq<string>): string {
    if words == [] then "" else if |words| == 1 then words[0] else WordThen(words[0], JoinWords(words[1..]))
  }

  function CodexArgs(effort: Option<string>, sessionId: string): seq<string> {
    (if effort.Some? then ["-c", "model_reasoning_effort=" + effort.value] else []) + ["resume", ShellSingleQuote(sessionId)]
  }

  /** resolveInteractiveResume of the two vendors that support it; the effort is set when it is not "none". */
  function ResumeLine(vendor: Vendor, command: string, sessionId: string): string
    requires !vendor.NoTakeover?
  {
    match vendor
    case ClaudeCode => command + " --resume " + ShellSingleQuote(sessionId)
    case Codex(effort) =>
      TrimSpace(command + " " + JoinWords(CodexArgs(effort, sessionId)))
  }

  function TakeoverLine(vendor: Vendor, command: string, workingDirectory: string, sessionId: string): Option<string> {
    var sid, dir := TrimSpace(sessionId), TrimSpace(workingDirectory);
    if sid == "" || vendor.NoTakeover? then None
    else
      var resume := ResumeLine(vendor, command, sid);
      Some(if dir != "" then "cd " + ShellSingleQuote(dir) + " && " + resume else resume)
  }

  /** There is a line exactly for a vendor that supports takeover and a session id that is not blank. */
  lemma TakeoverLineIff(vendor: Vendor, command: string, workingDirectory: string, sessionId: string)
    ensures TakeoverLine(vendor, command, workingDirectory, sessionId).Some? <==> !vendor.NoTakeover? && TrimSpace(sessionId) != ""
  {
  }

  /** The words that follow the command. */
  function ResumeWords(vendor: Vendor, sid: string): seq<Lexeme>
    requires !vendor.NoTakeover?
  {
    match vendor
    case ClaudeCode => [Verbatim("--resume"), Verbatim(sid)]
    case Codex(None) => [Verbatim("resume"), Verbatim(sid)]
    case Codex(Some(effort)) => [Verbatim("-c"), Verbatim("model_reasoning_effort=" + effort), Verbatim("resume"), Verbatim(sid)]
  }

  /** A text without special characters is one word. */
  lemma PlainWord(s: string, rest: string)
    requires s != "" && Plain(s)
    ensures Lex(s + (" " + rest), None) == Prepend(Verbatim(s), Lex(rest, None))
  {
    assert ShellSingleQuote(s) == s;
    QuotedThenBlank(s, rest);
  }

  /** The effort names of the configuration need no quoting. */
  predicate PlainVendor(vendor: Vendor) {
    vendor.Codex? && vendor.effort.Some? ==> Plain(vendor.effort.value)
  }

  /** What follows the command, word by word. */
  function ResumeArguments(vendor: Vendor, sid: string): string
    requires !vendor.NoTakeover?
  {
    match vendor
    case ClaudeCode => WordThen("--resume", ShellSingleQuote(sid))
    case Codex(None) => WordThen("resume", ShellSingleQuote(sid))
    case Codex(Some(effort)) => WordThen("-c", WordThen("model_reasoning_effort=" + effort, WordThen("resume", ShellSingleQuote(sid))))
  }

  function WordThen(word: string, rest: string): string {
    word + (" " + rest)
  }

  lemma PlainWordThen(word: string, rest: string)
    requires word != "" && Plain(word)
    ensures Lex(WordThen(word, rest), None) == Prepend(Verbatim(word), Lex(rest, None))
  {
    PlainWord(word, rest);
  }

  lemma WordThenSession(option: string, sid: string)
    requires option != "" && Plain(option)
    ensures Lex(WordThen(option, ShellSingleQuote(sid)), None) == Some([Verbatim(option), Verbatim(sid)])
  {
    hide Lex, ShellSingleQuote, Plain, WordThen;
    PlainWordThen(option, ShellSingleQuote(sid));
    QuotingRoundTrip(sid);
    assert [Verbatim(option)] + [Verbatim(sid)] == [Verbatim(option), Verbatim(sid)];
  }

  predicate Ordinary(c: char) {
    'a' <= c <= 'z' || c == '_' || c == '-' || c == '='
  }

  lemma OrdinaryIsPlain(s: string)
    requires forall i :: 0 <= i < |s| ==> Ordinary(s[i])
    ensures Plain(s)
  {
  }

  lemma PlainSetting(effort: string)
    requires Plain(effort)
    ensures Plain("model_reasoning_effort=" + effort) && Plain("-c") && Plain("resume") && Plain("--resume")
  {
    hide NeedsQuotes;
    OrdinaryIsPlain("model_reasoning_effort=");
    OrdinaryIsPlain("-c");
    OrdinaryIsPlain("resume");
    OrdinaryIsPlain("--resume");
  }

  lemma WordsOfArguments(vendor: Vendor, sid: string)
    requires !vendor.NoTakeover? && PlainVendor(vendor)
    ensures Lex(ResumeArguments(vendor, sid), None) == Some(ResumeWords(vendor, sid))
  {
    hide Lex, ShellSingleQuote, Plain, WordThen;
    match vendor
    case ClaudeCode =>
      EmptyIsPlain();
      WordThenSession("--resume", sid);
    case Codex(None) =>
      EmptyIsPlain();
      WordThenSession("resume", sid);
    case Codex(Some(effort)) =>
      PlainSetting(effort);
      var setting := "model_reasoning_effort=" + effort;
      var last := WordThen("resume", ShellSingleQuote(sid));
      WordThenSession("resume", sid);
      PlainWordThen(setting, last);
      PlainWordThen("-c", WordThen(setting, last));
      assert [Verbatim("-c")] + ([Verbatim(setting)] + [Verbatim("resume"), Verbatim(sid)])
             == [Verbatim("-c"), Verbatim(setting), Verbatim("resume"), Verbatim(sid)];
  }

  lemma EmptyIsPlain()
    ensures Plain("resume") && Plain("--resume")
  {
    PlainSetting("");
  }

  // Trimming the whole line only takes blanks off the front of the command.

  lemma {:induction false} TrimLeftOfCommand(command: string, more: string)
    requires TrimLeft(command) != ""
    ensures TrimLeft(command + more) == TrimLeft(command) + more
    decreases |command|
  {
    CutFront(command, more, 1);
    if IsSpace(command[0]) {
      TrimLeftOfCommand(command[1..], more);
    }
  }

  lemma QuotedEndsVisibly(s: string, front: string)
    requires s != "" && TrimRight(s) == s
    ensures TrimRight(front + ShellSingleQuote(s)) == front + ShellSingleQuote(s)
  {
    var q := ShellSingleQuote(s);
    if IsSpace(s[|s| - 1]) {
      TrimRightShortens(s);
    }
    assert q != "" && !IsSpace(q[|q| - 1]);
    assert (front + q)[|front + q| - 1] == q[|q| - 1];
  }

  lemma TrimRightShortens(s: string)
    requires s != "" && IsSpace(s[|s| - 1])
    ensures TrimRight(s) != s
  {
    TrimRightLength(s[..|s| - 1]);
  }

  lemma {:induction false} TrimRightLength(s: string)
    ensures |TrimRight(s)| <= |s|
    decreases |s|
  {
    if s != "" && IsSpace(s[|s| - 1]) {
      TrimRightLength(s[..|s| - 1]);
    }
  }

  lemma {:induction false} TrimRightIdempotent(s: string)
    ensures TrimRight(TrimRight(s)) == TrimRight(s)
    decreases |s|
  {
    if s != "" && IsSpace(s[|s| - 1]) {
      TrimRightIdempotent(s[..|s| - 1]);
    }
  }

  /** What the shell is given as the command: for Codex the line is trimmed. */
  function CommandOf(vendor: Vendor, command: string): string {
    if vendor.Codex? then TrimLeft(command) else command
  }

  lemma CodexArguments(effort: Option<string>, sid: string)
    ensures JoinWords(CodexArgs(effort, sid)) == ResumeArguments(Codex(effort), sid)
  {
    hide ShellSingleQuote, WordThen;
    var q := ShellSingleQuote(sid);
    var last := ["resume", q];
    assert last[1..] == [q] && JoinWords(last) == WordThen("resume", q);
    if effort.Some? {
      var setting := "model_reasoning_effort=" + effort.value;
      var words := ["-c", setting] + last;
      assert words[1..] == [setting] + last && words[1..][1..] == last;
    } else {
      assert CodexArgs(effort, sid) == last;
    }
  }

  lemma {:induction false} LastWordStays(words: seq<string>, sid: string) returns (front: string)
    requires words != [] && words[|words| - 1] == ShellSingleQuote(sid)
    ensures JoinWords(words) == front + ShellSingleQuote(sid)
    decreases |words|
  {
    hide ShellSingleQuote;
    if |words| == 1 {
      front := "";
      assert "" + ShellSingleQuote(sid) == ShellSingleQuote(sid);
    } else {
      var rest := LastWordStays(words[1..], sid);
      front := words[0] + (" " + rest);
      assert words[0] + (" " + (rest + ShellSingleQuote(sid))) == front + ShellSingleQuote(sid);
    }
  }

  lemma TrimmedCodexLine(command: string, words: seq<string>, sid: string)
    requires sid != "" && TrimRight(sid) == sid && TrimLeft(command) != ""
    requires words != [] && words[|words| - 1] == ShellSingleQuote(sid)
    ensures TrimSpace(command + " " + JoinWords(words)) == TrimLeft(command) + (" " + JoinWords(words))
  {
    hide ShellSingleQuote, TrimLeft, TrimRight, JoinWords;
    var line := JoinWords(words);
    assert command + " " + line == command + (" " + line);
    TrimLeftOfCommand(command, " " + line);
    var front := LastWordStays(words, sid);
    var before := TrimLeft(command) + (" " + front);
    assert TrimLeft(command) + (" " + line) == before + ShellSingleQuote(sid);
    QuotedEndsVisibly(sid, before);
  }

  lemma ResumeLineIs(vendor: Vendor, command: string, sid: string)
    requires !vendor.NoTakeover? && sid != "" && TrimRight(sid) == sid && TrimLeft(command) != ""
    ensures ResumeLine(vendor, command, sid) == CommandOf(vendor, command) + (" " + ResumeArguments(vendor, sid))
  {
    hide ShellSingleQuote, TrimLeft, TrimRight, TrimSpace, JoinWords;
    var q := ShellSingleQuote(sid);
    match vendor
    case ClaudeCode =>
      assert command + " --resume " + q == command + (" " + ("--resume" + (" " + q)));
    case Codex(effort) =>
      CodexArguments(effort, sid);
      TrimmedCodexLine(command, CodexArgs(effort, sid), sid);
  }

  /**
   The takeover line, read by the shell, changes to the working directory, then runs the
   command with the session id as its last word: both come back unchanged.
   */
  lemma TakeoverLineRoundTrip(vendor: Vendor, command: string, workingDirectory: string, sessionId: string)
    requires TakeoverLine(vendor, command, workingDirectory, sessionId).Some? && PlainVendor(vendor)
    requires TrimLeft(command) != "" && Lex(CommandOf(vendor, command), None).Some?
    ensures var line := TakeoverLine(vendor, command, workingDirectory, sessionId).value;
            var sid, dir := TrimSpace(sessionId), TrimSpace(workingDirectory);
            var run := Lex(CommandOf(vendor, command), None).value + ResumeWords(vendor, sid);
            Lex(line, None) == Some(if dir != "" then [Verbatim("cd"), Verbatim(dir), Operator("&&")] + run else run)
  {
    hide Lex, ShellSingleQuote, ResumeLine, ResumeArguments, ResumeWords, CommandOf;
    var sid, dir := TrimSpace(sessionId), TrimSpace(workingDirectory);
    TrimRightIdempotent(TrimLeft(sessionId));
    var resume := ResumeLine(vendor, command, sid);
    ResumeLineIs(vendor, command, sid);
    BlankSeparates(CommandOf(vendor, command), None, ResumeArguments(vendor, sid));
    WordsOfArguments(vendor, sid);
    if dir != "" {
      CdLine(dir, resume);
    }
  }

  lemma CdLine(dir: string, resume: string)
    ensures Lex("cd " + ShellSingleQuote(dir) + " && " + resume, None) ==
            Join(Some([Verbatim("cd"), Verbatim(dir), Operator("&&")]), Lex(resume, None))
  {
    hide Lex, ShellSingleQuote, NeedsQuotes;
    var q := ShellSingleQuote(dir);
    var and := "&& " + resume;
    assert "cd " + q + " && " + resume == "cd" + (" " + (q + (" " + and)));
    CdIsPlain();
    PlainWord("cd", q + (" " + and));
    QuotedThenBlank(dir, and);
    AndThen(resume);
    if Lex(resume, None).Some? {
      var r := Lex(resume, None).value;
      assert [Verbatim("cd")] + ([Verbatim(dir)] + ([Operator("&&")] + r)) == [Verbatim("cd"), Verbatim(dir), Operator("&&")] + r;
    }
  }

  lemma CdIsPlain()
    ensures Plain("cd")
  {
    OrdinaryIsPlain("cd");
  }

  lemma AndThen(resume: string)
    ensures Lex("&& " + resume, None) == Prepend(Operator("&&"), Lex(resume, None))
  {
    var s := "&& " + resume;
    assert s[0] == '&' && s[1] == '&' && OperatorAt(s) == "&&" && !GivesUp(s, None);
    assert s[2..] == " " + resume && (" " + resume)[1..] == resume;
    assert Lex(s[2..], None) == Lex(resume, None);
  }
}
