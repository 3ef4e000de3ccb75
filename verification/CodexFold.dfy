/**
 The Codex event translator (internal/agent/codex_jsonl.go): a fold over JSONL lines whose
 tool list is updated through an id index, against an update by linear scan.  What a line
 decodes to is a parameter; decoded strings are empty or not blank.
 */
module CodexFold {
  import opened Texts
  import opened Wrappers

  datatype ToolStatus = ToolRunning | ToolDone | ToolError

  datatype Tool = Tool(id: string, command: string, status: ToolStatus, output: string)

  datatype Event =
    | Ignored
    | ThreadStarted(threadId: string)
    | CommandStarted(id: string, command: string)
    | CommandCompleted(id: string, command: string, failed: bool, output: string)
    | AgentMessage(text: string)
    | TurnCompleted
    | TurnFailed(message: string)
    | StreamError(message: string)

  type Decode = string -> Event

  datatype State = State(threadId: string, tools: seq<Tool>, finalText: string, terminal: bool, error: string)

  const EMPTY := State("", [], "", false, "")

  predicate Blank(s: string) {
    TrimSpace(s) == ""
  }

  // ---------------------------------------------------------------------------
  // The reference: update by linear scan
  // ---------------------------------------------------------------------------

  function FindFrom(tools: seq<Tool>, id: string, i: nat): (r: Option<nat>)
    requires i <= |tools|
    ensures r.Some? ==> i <= r.value < |tools| && tools[r.value].id == id
    ensures r.Some? ==> forall k :: i <= k < r.value ==> tools[k].id != id
    ensures r.None? ==> forall k :: i <= k < |tools| ==> tools[k].id != id
    decreases |tools| - i
  {
    if i == |tools| then None else if tools[i].id == id then Some(i) else FindFrom(tools, id, i + 1)
  }

  function Upsert(tools: seq<Tool>, e: Tool): seq<Tool> {
    if e.id == "" then tools + [e]
    else
      match FindFrom(tools, e.id, 0)
      case None => tools + [e]
      case Some(i) => tools[i := if Blank(e.command) then e.(command := tools[i].command) else e]
  }

  function ToolOf(e: Event): Option<Tool> {
    match e
    case CommandStarted(id, command) => if id != "" then Some(Tool(id, command, ToolRunning, "")) else None
    case CommandCompleted(id, command, failed, output) => Some(Tool(id, command, if failed then ToolError else ToolDone, output))
    case _ => None
  }

  function Step(s: State, e: Event): State {
    match e
    case Ignored => s
    case ThreadStarted(id) => if id != "" then s.(threadId := id) else s
    case AgentMessage(text) => if text != "" then s.(finalText := text) else s
    case TurnCompleted => s.(terminal := true)
    case TurnFailed(message) => s.(terminal := true, error := message)
    case StreamError(message) => s.(error := message)
    case _ => if ToolOf(e).Some? then s.(tools := Upsert(s.tools, ToolOf(e).value)) else s
  }

  function EventOf(decode: Decode, line: string): Event {
    var trimmed := TrimSpace(line);
    if trimmed == "" || trimmed[0] != '{' then Ignored else decode(trimmed)
  }

  function FoldLines(decode: Decode, s: State, lines: seq<string>): State {
    if lines == [] then s
    else Step(FoldLines(decode, s, lines[..|lines| - 1]), EventOf(decode, lines[|lines| - 1]))
  }

  /** strings.Split at newlines. */
  function Split(blob: string): (lines: seq<string>)
    ensures lines != []
  {
    if blob == "" then [""]
    else AddFront(blob[0], Split(blob[1..]))
  }

  // ---------------------------------------------------------------------------
  // The translator
  // ---------------------------------------------------------------------------

  class Translator {
    const decode: Decode
    var threadId: string
    var tools: seq<Tool>
    var toolIndex: map<string, nat>
    var finalText: string
    var terminal: bool
    var error: string

    /** Each non-empty id occurs once, and the index maps it to its position. */
    ghost predicate Valid()
      reads this`tools, this`toolIndex
    {
      && (forall id :: id in toolIndex ==> id != "" && toolIndex[id] < |tools| && tools[toolIndex[id]].id == id)
      && (forall i :: 0 <= i < |tools| && tools[i].id != "" ==> tools[i].id in toolIndex && toolIndex[tools[i].id] == i)
    }

    ghost function Folded(): State
      reads this
    {
      State(threadId, tools, finalText, terminal, error)
    }

    constructor (decode: Decode)
      ensures Valid() && Folded() == EMPTY && this.decode == decode
    {
      this.decode := decode;
      threadId, tools, toolIndex, finalText, terminal, error := "", [], map[], "", false, "";
    }

    /** upsertTool: the index finds what the scan finds. */
    method UpsertTool(e: Tool)
      requires Valid()
      modifies this`tools, this`toolIndex
      ensures Valid() && tools == Upsert(old(tools), e)
    {
      ghost var found := FindFrom(tools, e.id, 0);
      if e.id == "" {
        tools := tools + [e];
        return;
      }
      if e.id in toolIndex {
        var i := toolIndex[e.id];
        assert found == Some(i);
        var entry := e;
        if Blank(entry.command) {
          entry := entry.(command := tools[i].command);
        }
        tools := tools[i := entry];
        return;
      }
      toolIndex := toolIndex[e.id := |tools|];
      tools := tools + [e];
    }

    method IngestLine(line: string)
      requires Valid()
      modifies this
      ensures Valid() && Folded() == Step(old(Folded()), EventOf(decode, line))
    {
      hide Upsert, TrimSpace, Valid;
      var trimmed := TrimSpace(line);
      if trimmed == "" || trimmed[0] != '{' {
        return;
      }
      match decode(trimmed)
      case Ignored =>
      case ThreadStarted(id) =>
        if id != "" {
          threadId := id;
        }
      case CommandStarted(id, command) =>
        if id != "" {
          UpsertTool(Tool(id, command, ToolRunning, ""));
        }
      case CommandCompleted(id, command, failed, output) =>
        UpsertTool(Tool(id, command, if failed then ToolError else ToolDone, output));
      case AgentMessage(text) =>
        if text != "" {
          finalText := text;
        }
      case TurnCompleted =>
        terminal := true;
      case TurnFailed(message) =>
        terminal, error := true, message;
      case StreamError(message) =>
        error := message;
    }

    method IngestAll(blob: string)
      requires Valid()
      modifies this
      ensures Valid() && Folded() == FoldLines(decode, old(Folded()), Split(blob))
    {
      var lines := Split(blob);
      for n := 0 to |lines|
        invariant Valid() && Folded() == FoldLines(decode, old(Folded()), lines[..n])
      {
        assert lines[..n + 1][..n] == lines[..n];
        IngestLine(lines[n]);
      }
      assert lines[..|lines|] == lines;
    }
  }

  // ---------------------------------------------------------------------------
  // Whole and incremental translation agree
  // ---------------------------------------------------------------------------

  /** A character in front joins the first line, or ends an empty one. */
  function AddFront(c: char, lines: seq<string>): seq<string>
    requires lines != []
  {
    if c == '\n' then [""] + lines else [[c] + lines[0]] + lines[1..]
  }

  lemma AddFrontConcat(c: char, xs: seq<string>, ys: seq<string>)
    requires xs != []
    ensures AddFront(c, xs + ys) == AddFront(c, xs) + ys
  {
    assert (xs + ys)[0] == xs[0] && (xs + ys)[1..] == xs[1..] + ys;
  }

  lemma {:induction false} SplitConcat(a: string, b: string)
    ensures Split(a + "\n" + b) == Split(a) + Split(b)
    decreases |a|
  {
    var s := a + "\n" + b;
    if a == "" {
      assert s[0] == '\n' && s[1..] == b;
    } else {
      assert s[0] == a[0] && s[1..] == a[1..] + "\n" + b;
      SplitConcat(a[1..], b);
      AddFrontConcat(a[0], Split(a[1..]), Split(b));
    }
  }

  lemma {:induction false} FoldConcat(decode: Decode, s: State, xs: seq<string>, ys: seq<string>)
    ensures FoldLines(decode, s, xs + ys) == FoldLines(decode, FoldLines(decode, s, xs), ys)
    decreases |ys|
  {
    if ys == [] {
      assert xs + ys == xs;
    } else {
      var all := xs + ys;
      assert all[..|all| - 1] == xs + ys[..|ys| - 1] && all[|all| - 1] == ys[|ys| - 1];
      FoldConcat(decode, s, xs, ys[..|ys| - 1]);
    }
  }

  /** Ingesting two pieces joined by a newline is ingesting one and then the other. */
  lemma IncrementalAgrees(decode: Decode, s: State, a: string, b: string)
    ensures FoldLines(decode, s, Split(a + "\n" + b)) == FoldLines(decode, FoldLines(decode, s, Split(a)), Split(b))
  {
    SplitConcat(a, b);
    FoldConcat(decode, s, Split(a), Split(b));
  }

  // ---------------------------------------------------------------------------
  // What the tool list says about the events
  // ---------------------------------------------------------------------------

  /** The event starts or completes a command; only a completion may leave out the id. */
  predicate OfCommand(e: Event) {
    (e.CommandStarted? && e.id != "") || e.CommandCompleted?
  }

  predicate About(e: Event, id: string) {
    OfCommand(e) && e.id == id
  }

  function StatusIn(e: Event): ToolStatus {
    if !e.CommandCompleted? then ToolRunning else if e.failed then ToolError else ToolDone
  }

  function OutputIn(e: Event): string {
    if e.CommandCompleted? then e.output else ""
  }

  /** The commands announced for an id: the last one that is not blank, if any. */
  function LastCommand(decode: Decode, lines: seq<string>, id: string): (r: Option<string>)
    ensures r.Some? ==> !Blank(r.value)
  {
    if lines == [] then None
    else
      var e := EventOf(decode, lines[|lines| - 1]);
      if About(e, id) && !Blank(e.command) then Some(e.command) else LastCommand(decode, lines[..|lines| - 1], id)
  }

  predicate Mentioned(decode: Decode, lines: seq<string>, id: string) {
    exists k :: 0 <= k < |lines| && About(EventOf(decode, lines[k]), id)
  }

  lemma ToolSays(e: Event)
    ensures ToolOf(e).Some? <==> OfCommand(e)
    ensures OfCommand(e) ==> ToolOf(e) == Some(Tool(e.id, e.command, StatusIn(e), OutputIn(e)))
  {
  }

  lemma FirstIs(tools: seq<Tool>, id: string, k: nat)
    requires k < |tools| && tools[k].id == id && forall j :: 0 <= j < k ==> tools[j].id != id
    ensures FindFrom(tools, id, 0) == Some(k)
  {
    var r := FindFrom(tools, id, 0);
    assert r.Some?;
  }

  lemma NoneIs(tools: seq<Tool>, id: string)
    requires forall j :: 0 <= j < |tools| ==> tools[j].id != id
    ensures FindFrom(tools, id, 0) == None
  {
  }

  /** How one update changes what is found for an id. */
  lemma UpsertFinds(tools: seq<Tool>, e: Tool, id: string)
    requires id != ""
    ensures var after := FindFrom(Upsert(tools, e), id, 0);
            var before := FindFrom(tools, id, 0);
            && (after.Some? <==> before.Some? || e.id == id)
            && (before.Some? ==> after == before && |tools| <= |Upsert(tools, e)|)
            && (after.Some? ==>
                  var command := Upsert(tools, e)[after.value].command;
                  if e.id == id && !Blank(e.command) then command == e.command
                  else if before.Some? then command == tools[before.value].command
                  else command == e.command)
  {
    hide Blank;
    var more := Upsert(tools, e);
    var before := FindFrom(tools, id, 0);
    if before.Some? {
      FirstIs(more, id, before.value);
    } else if e.id == id {
      FirstIs(more, id, |tools|);
    } else {
      NoneIs(more, id);
    }
  }

  /** An id is listed exactly when an event mentioned it, with the last command that was not blank. */
  lemma {:induction false} ToolsTellTheCommands(decode: Decode, lines: seq<string>, id: string)
    requires id != ""
    ensures var tools := FoldLines(decode, EMPTY, lines).tools;
            var found := FindFrom(tools, id, 0);
            && (found.Some? <==> Mentioned(decode, lines, id))
            && (LastCommand(decode, lines, id).Some? ==> found.Some? && tools[found.value].command == LastCommand(decode, lines, id).value)
            && (found.Some? && LastCommand(decode, lines, id).None? ==> Blank(tools[found.value].command))
    decreases |lines|
  {
    hide Blank, Upsert, EventOf;
    if lines != [] {
      var n := |lines| - 1;
      var front := lines[..n];
      ToolsTellTheCommands(decode, front, id);
      MentionedFront(decode, lines, id);
      ToolSays(EventOf(decode, lines[n]));
      var t := ToolOf(EventOf(decode, lines[n]));
      if t.Some? {
        UpsertFinds(FoldLines(decode, EMPTY, front).tools, t.value, id);
      }
    }
  }

  lemma MentionedFront(decode: Decode, lines: seq<string>, id: string)
    requires lines != []
    ensures var n := |lines| - 1;
            Mentioned(decode, lines, id) <==> Mentioned(decode, lines[..n], id) || About(EventOf(decode, lines[n]), id)
  {
    hide About, EventOf;
    var n := |lines| - 1;
    var front := lines[..n];
    if k :| 0 <= k < |front| && About(EventOf(decode, front[k]), id) {
      assert lines[k] == front[k];
    }
    if k :| 0 <= k < |lines| && About(EventOf(decode, lines[k]), id) {
      assert k < n ==> front[k] == lines[k];
    }
  }

  /** Over any further lines a recorded command that is not blank stays not blank, at its place. */
  lemma {:induction false} CommandIsNeverBlanked(decode: Decode, s: State, lines: seq<string>, i: nat)
    requires i < |s.tools| && s.tools[i].id != "" && !Blank(s.tools[i].command) && FindFrom(s.tools, s.tools[i].id, 0) == Some(i)
    ensures var after := FoldLines(decode, s, lines).tools;
            i < |after| && after[i].id == s.tools[i].id && !Blank(after[i].command) && FindFrom(after, after[i].id, 0) == Some(i)
    decreases |lines|
  {
    hide Blank, Upsert, EventOf;
    if lines != [] {
      CommandIsNeverBlanked(decode, s, lines[..|lines| - 1], i);
      var t := ToolOf(EventOf(decode, lines[|lines| - 1]));
      if t.Some? {
        UpsertFinds(FoldLines(decode, s, lines[..|lines| - 1]).tools, t.value, s.tools[i].id);
      }
    }
  }

  // ---------------------------------------------------------------------------
  // The whole state, from the events alone
  // ---------------------------------------------------------------------------

  /** An entry of the tool list: that of an id, or the lone one of a line that gave none. */
  datatype Key = ById(id: string) | OfLine(n: nat)

  /** The keys in the order in which the lines brought them up. */
  function Keys(decode: Decode, lines: seq<string>): seq<Key> {
    if lines == [] then []
    else
      var n := |lines| - 1;
      var front := Keys(decode, lines[..n]);
      var e := EventOf(decode, lines[n]);
      if !OfCommand(e) then front
      else if e.id == "" then front + [OfLine(n)]
      else if ById(e.id) in front then front else front + [ById(e.id)]
  }

  /** The last event about an id. */
  function LastAbout(decode: Decode, lines: seq<string>, id: string): (r: Option<Event>)
    ensures r.Some? ==> About(r.value, id)
  {
    if lines == [] then None
    else
      var e := EventOf(decode, lines[|lines| - 1]);
      if About(e, id) then Some(e) else LastAbout(decode, lines[..|lines| - 1], id)
  }

  /** The entry of an id has the last event's status and output, and a lone entry is all its event's. */
  predicate Tells(decode: Decode, lines: seq<string>, key: Key, tool: Tool) {
    match key
    case ById(id) =>
      && id != "" && tool.id == id
      && var last := LastAbout(decode, lines, id);
         last.Some? && tool.status == StatusIn(last.value) && tool.output == OutputIn(last.value)
    case OfLine(n) =>
      && n < |lines|
      && var e := EventOf(decode, lines[n]);
         About(e, "") && tool == Tool("", e.command, StatusIn(e), OutputIn(e))
  }

  predicate TellsAll(decode: Decode, lines: seq<string>, tools: seq<Tool>) {
    var keys := Keys(decode, lines);
    && |tools| == |keys| && (forall i :: 0 <= i < |keys| ==> Tells(decode, lines, keys[i], tools[i]))
    && (forall i, j :: 0 <= i < j < |keys| ==> keys[i] != keys[j])
  }

  lemma TellsAfter(decode: Decode, lines: seq<string>, key: Key, tool: Tool)
    requires lines != [] && Tells(decode, lines[..|lines| - 1], key, tool)
    ensures var e := EventOf(decode, lines[|lines| - 1]);
            (!OfCommand(e) || key != ById(e.id)) ==> Tells(decode, lines, key, tool)
  {
    hide EventOf;
  }

  /** The list grows by a new key, or keeps its keys and replaces the entry of one. */
  lemma UpsertAt(decode: Decode, lines: seq<string>, tools: seq<Tool>, t: Tool)
    requires TellsAll(decode, lines, tools)
    ensures var keys := Keys(decode, lines);
            if t.id == "" || ById(t.id) !in keys then Upsert(tools, t) == tools + [t]
            else exists i :: 0 <= i < |keys| && keys[i] == ById(t.id)
                             && Upsert(tools, t) == tools[i := if Blank(t.command) then t.(command := tools[i].command) else t]
  {
    hide EventOf, Blank, LastAbout;
    var keys := Keys(decode, lines);
    if t.id != "" {
      if ById(t.id) in keys {
        var i :| 0 <= i < |keys| && keys[i] == ById(t.id);
        forall j | 0 <= j < i
          ensures tools[j].id != t.id
        {
          assert Tells(decode, lines, keys[j], tools[j]) && keys[j] != keys[i];
        }
        assert Tells(decode, lines, keys[i], tools[i]);
        FirstIs(tools, t.id, i);
      } else {
        forall j | 0 <= j < |tools|
          ensures tools[j].id != t.id
        {
          assert Tells(decode, lines, keys[j], tools[j]);
          assert keys[j] in keys;
        }
        NoneIs(tools, t.id);
      }
    }
  }

  /** One line more changes the tool list only by its own update. */
  lemma ToolsAfterLine(decode: Decode, lines: seq<string>)
    requires lines != []
    ensures var t := ToolOf(EventOf(decode, lines[|lines| - 1]));
            var tools := FoldLines(decode, EMPTY, lines[..|lines| - 1]).tools;
            FoldLines(decode, EMPTY, lines).tools == if t.None? then tools else Upsert(tools, t.value)
  {
    hide EventOf, Upsert, Step, ToolOf;
    StepTools(FoldLines(decode, EMPTY, lines[..|lines| - 1]), EventOf(decode, lines[|lines| - 1]));
  }

  lemma StepTools(s: State, e: Event)
    ensures Step(s, e).tools == if ToolOf(e).None? then s.tools else Upsert(s.tools, ToolOf(e).value)
  {
  }

  /** The tool list tells every event: one entry per key in order, each with what its last event said. */
  lemma {:induction false} ToolsTellTheEvents(decode: Decode, lines: seq<string>)
    ensures TellsAll(decode, lines, FoldLines(decode, EMPTY, lines).tools)
    decreases |lines|
  {
    if lines != [] {
      hide FoldLines, TellsAll, Upsert, ToolOf, EventOf;
      ToolsTellTheEvents(decode, lines[..|lines| - 1]);
      ToolsAfterLine(decode, lines);
      OneLineTold(decode, lines, FoldLines(decode, EMPTY, lines[..|lines| - 1]).tools);
    }
  }

  lemma OneLineTold(decode: Decode, lines: seq<string>, tools: seq<Tool>)
    requires lines != [] && TellsAll(decode, lines[..|lines| - 1], tools)
    ensures var t := ToolOf(EventOf(decode, lines[|lines| - 1]));
            TellsAll(decode, lines, if t.None? then tools else Upsert(tools, t.value))
  {
    hide EventOf, Blank, Upsert, LastAbout, ToolOf;
    var n := |lines| - 1;
    var front := lines[..n];
    var keys := Keys(decode, front);
    var e := EventOf(decode, lines[n]);
    ToolSays(e);
    forall i | 0 <= i < |keys|
      ensures !OfCommand(e) || keys[i] != ById(e.id) ==> Tells(decode, lines, keys[i], tools[i])
    {
      TellsAfter(decode, lines, keys[i], tools[i]);
    }
    if OfCommand(e) {
      UpsertAt(decode, front, tools, ToolOf(e).value);
      LastOfLine(decode, lines);
      LinesAreEarlier(decode, front, tools);
    }
  }

  lemma LastOfLine(decode: Decode, lines: seq<string>)
    requires lines != [] && OfCommand(EventOf(decode, lines[|lines| - 1]))
    ensures var e := EventOf(decode, lines[|lines| - 1]); LastAbout(decode, lines, e.id) == Some(e)
  {
  }

  lemma LinesAreEarlier(decode: Decode, lines: seq<string>, tools: seq<Tool>)
    requires TellsAll(decode, lines, tools)
    ensures OfLine(|lines|) !in Keys(decode, lines)
  {
    var keys := Keys(decode, lines);
    forall i | 0 <= i < |keys|
      ensures keys[i] != OfLine(|lines|)
    {
      assert Tells(decode, lines, keys[i], tools[i]);
    }
  }

  /** The last non-empty value that some line gives, or `start`. */
  function LastOf(decode: Decode, lines: seq<string>, pick: Event -> Option<string>, start: string): string {
    if lines == [] then start
    else
      match pick(EventOf(decode, lines[|lines| - 1]))
      case Some(text) => text
      case None => LastOf(decode, lines[..|lines| - 1], pick, start)
  }

  function ThreadIn(e: Event): Option<string> {
    if e.ThreadStarted? && e.threadId != "" then Some(e.threadId) else None
  }

  function MessageIn(e: Event): Option<string> {
    if e.AgentMessage? && e.text != "" then Some(e.text) else None
  }

  function ErrorIn(e: Event): Option<string> {
    match e
    case TurnFailed(message) => Some(message)
    case StreamError(message) => Some(message)
    case _ => None
  }

  /** Thread, final text and error are the last ones given, and the run is over exactly when some turn completed or failed. */
  lemma {:induction false} RestTellsTheEvents(decode: Decode, s: State, lines: seq<string>)
    ensures var t := FoldLines(decode, s, lines);
            && t.threadId == LastOf(decode, lines, ThreadIn, s.threadId)
            && t.finalText == LastOf(decode, lines, MessageIn, s.finalText)
            && t.error == LastOf(decode, lines, ErrorIn, s.error)
            && (t.terminal <==> s.terminal || exists i :: 0 <= i < |lines| && Ends(EventOf(decode, lines[i])))
    decreases |lines|
  {
    hide EventOf, Upsert;
    if lines != [] {
      var n := |lines| - 1;
      RestTellsTheEvents(decode, s, lines[..n]);
      assert forall i :: 0 <= i < n ==> lines[..n][i] == lines[i];
    }
  }

  predicate Ends(e: Event) {
    e.TurnCompleted? || e.TurnFailed?
  }
}
