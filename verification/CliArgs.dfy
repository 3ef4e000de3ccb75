/**
 The two argument parsers of the command line (cmd/looper/main.go, splitGlobalFlags;
 cmd/looper/retry.go, splitRetryArgs).  They read the same argument list; the retry parser
 must not see another command than the router did.
 */
module CliArgs {
  import opened Texts
  import opened Wrappers

  type Args = seq<string>

  predicate GlobalName(name: string) {
    name == "--config" || name == "--host" || name == "--port"
  }

  predicate Dashed(arg: string) {
    arg != "" && arg[0] == '-' && arg != "-"
  }

  predicate DoubleDashed(arg: string) {
    "--" <= arg
  }

  /** strings.Cut at the first '='. */
  function CutAt(arg: string): (i: nat)
    ensures i <= |arg| && (i < |arg| ==> arg[i] == '=') && forall j :: 0 <= j < i ==> arg[j] != '='
  {
    if arg == "" || arg[0] == '=' then 0 else 1 + CutAt(arg[1..])
  }

  function FlagName(arg: string): string {
    arg[..CutAt(arg)]
  }

  predicate Inline(arg: string) {
    CutAt(arg) < |arg|
  }

  /** A global flag with its value inline. */
  predicate InlineGlobal(arg: string) {
    GlobalName(FlagName(arg)) && Inline(arg)
  }

  /** A global flag that takes the next argument. */
  predicate BareGlobal(arg: string) {
    GlobalName(FlagName(arg)) && !Inline(arg)
  }

  /** The three global flags, with their value behind the first equals sign or in the next argument. */
  lemma GlobalsAre(arg: string, value: string)
    ensures BareGlobal(arg) <==> arg in {"--config", "--host", "--port"}
    ensures BareGlobal(arg) ==> InlineGlobal(arg + "=" + value)
    ensures InlineGlobal(arg) ==> exists name :: name in {"--config", "--host", "--port"} && name + "=" <= arg
  {
    assert arg[..|arg|] == arg;
    if arg in {"--config", "--host", "--port"} {
      WholeName(arg);
      CutIs(arg, value);
    }
    if InlineGlobal(arg) {
      assert arg[..CutAt(arg) + 1] == FlagName(arg) + "=";
    }
  }

  lemma WholeName(name: string)
    requires '=' !in name
    ensures FlagName(name) == name && !Inline(name)
  {
    assert forall i :: 0 <= i < |name| ==> name[i] in name;
    assert name[..|name|] == name;
  }

  lemma CutIs(name: string, value: string)
    requires '=' !in name
    ensures FlagName(name + "=" + value) == name && Inline(name + "=" + value)
  {
    var arg := name + "=" + value;
    forall i | 0 <= i < |name|
      ensures arg[i] != '='
    {
      assert name[i] in name && arg[i] == name[i];
    }
    assert arg[|name|] == '=' && arg[..|name|] == name;
  }

  predicate HasValue(args: Args) {
    |args| >= 2 && !DoubleDashed(args[1])
  }

  lemma CutJoins(arg: string)
    requires Inline(arg)
    ensures arg[..CutAt(arg)] + "=" + arg[CutAt(arg) + 1..] == arg
  {
  }

  // ---------------------------------------------------------------------------
  // The router
  // ---------------------------------------------------------------------------

  datatype Parsed = Parsed(verb: string, operands: Args, global: Args)

  const NOTHING := Parsed("", [], [])

  predicate OwnsFlags(verb: string) {
    verb == "review" || verb == "retry" || verb == "upgrade" || verb == "version" || verb == "--version" || verb == "provider"
  }

  predicate TopLevelFlag(arg: string) {
    arg == "--version" || arg == "--help" || arg == "-h"
  }

  function Done(p: Parsed): Option<Parsed> {
    if p.verb == "" then None else Some(p)
  }

  function AfterDashes(p: Parsed, rest: Args): Parsed {
    if p.verb == "" && rest != [] then p.(verb := rest[0], operands := p.operands + rest[1..])
    else p.(operands := p.operands + rest)
  }

  function Word(p: Parsed, arg: string): Parsed {
    if p.verb == "" then p.(verb := arg) else p.(operands := p.operands + [arg])
  }

  function Route(args: Args, p: Parsed): Option<Parsed>
    decreases |args|
  {
    if args == [] then Done(p)
    else if args[0] == "--" then Done(AfterDashes(p, args[1..]))
    else if InlineGlobal(args[0]) then Route(args[1..], p.(global := p.global + [args[0]]))
    else if BareGlobal(args[0]) then
      if HasValue(args) then Route(args[2..], p.(global := p.global + [args[0], args[1]])) else None
    else if p.verb == "" && TopLevelFlag(args[0]) then Route(args[1..], p.(verb := args[0]))
    else if Dashed(args[0]) && !OwnsFlags(p.verb) then None
    else Route(args[1..], Word(p, args[0]))
  }

  method SplitGlobalFlags(args: Args) returns (r: Option<Parsed>)
    ensures r == Route(args, NOTHING)
  {
    var p := NOTHING;
    var index := 0;
    while index < |args|
      invariant 0 <= index <= |args|
      invariant Route(args, NOTHING) == Route(args[index..], p)
    {
      var arg := args[index];
      var left := args[index..];
      assert left[0] == arg && left[1..] == args[index + 1..];
      if arg == "--" {
        var remaining := args[index + 1..];
        if p.verb == "" && |remaining| > 0 {
          p := p.(verb := remaining[0]);
          remaining := remaining[1..];
        }
        p := p.(operands := p.operands + remaining);
        if p.verb == "" {
          return None;
        }
        return Some(p);
      }
      var name := arg[..CutAt(arg)];
      if GlobalName(name) {
        if CutAt(arg) < |arg| {
          CutJoins(arg);
          p := p.(global := p.global + [name + "=" + arg[CutAt(arg) + 1..]]);
          index := index + 1;
          continue;
        }
        if index + 1 >= |args| || DoubleDashed(args[index + 1]) {
          return None;
        }
        assert left[1] == args[index + 1] && left[2..] == args[index + 2..] && name == arg;
        p := p.(global := p.global + [name, args[index + 1]]);
        index := index + 2;
        continue;
      }
      if p.verb == "" && (arg == "--version" || arg == "--help" || arg == "-h") {
        p := p.(verb := arg);
        index := index + 1;
        continue;
      }
      if Dashed(arg) && !OwnsFlags(p.verb) {
        return None;
      }
      if p.verb == "" {
        p := p.(verb := arg);
      } else {
        p := p.(operands := p.operands + [arg]);
      }
      index := index + 1;
    }
    assert args[|args|..] == [];
    if p.verb == "" {
      return None;
    }
    return Some(p);
  }

  // ---------------------------------------------------------------------------
  // The retry parser
  // ---------------------------------------------------------------------------

  datatype RetryState = RetryState(global: Args, positionals: Args, seenVerb: bool, discard: bool, confirm: bool)

  const NO_RETRY := RetryState([], [], false, false, false)

  datatype Retry = Retry(global: Args, selector: string, discard: bool, confirm: bool)

  predicate RetryFlag(arg: string) {
    arg == "--discard-worktree-changes" || arg == "--confirm"
  }

  function RetryDone(s: RetryState): Option<Retry> {
    if !s.seenVerb || |s.positionals| != 1 || TrimSpace(s.positionals[0]) == "" then None
    else Some(Retry(s.global, TrimSpace(s.positionals[0]), s.discard, s.confirm))
  }

  function RetryScan(args: Args, s: RetryState): Option<RetryState>
    decreases |args|
  {
    if args == [] then Some(s)
    else if args[0] == "--" then Some(s.(positionals := s.positionals + args[1..]))
    else if InlineGlobal(args[0]) then RetryScan(args[1..], s.(global := s.global + [args[0]]))
    else if BareGlobal(args[0]) then
      if HasValue(args) then RetryScan(args[2..], s.(global := s.global + [args[0], args[1]])) else None
    else if !s.seenVerb then
      if args[0] == "retry" then RetryScan(args[1..], s.(seenVerb := true)) else None
    else if args[0] == "--discard-worktree-changes" then RetryScan(args[1..], s.(discard := true))
    else if args[0] == "--confirm" then RetryScan(args[1..], s.(confirm := true))
    else if Dashed(args[0]) then None
    else RetryScan(args[1..], s.(positionals := s.positionals + [args[0]]))
  }

  function RetryParse(args: Args): Option<Retry> {
    var s := RetryScan(args, NO_RETRY);
    if s.None? then None else RetryDone(s.value)
  }

  method SplitRetryArgs(args: Args) returns (r: Option<Retry>)
    ensures r == RetryParse(args)
  {
    var s := NO_RETRY;
    var i := 0;
    while i < |args|
      invariant 0 <= i <= |args|
      invariant RetryScan(args, NO_RETRY) == RetryScan(args[i..], s)
    {
      var arg := args[i];
      var left := args[i..];
      assert left[0] == arg && left[1..] == args[i + 1..];
      if arg == "--" {
        s := s.(positionals := s.positionals + args[i + 1..]);
        r := RetryDone(s);
        return;
      }
      var name := arg[..CutAt(arg)];
      if GlobalName(name) {
        if CutAt(arg) < |arg| {
          CutJoins(arg);
          s := s.(global := s.global + [name + "=" + arg[CutAt(arg) + 1..]]);
          i := i + 1;
          continue;
        }
        if i + 1 >= |args| || DoubleDashed(args[i + 1]) {
          return None;
        }
        assert left[1] == args[i + 1] && left[2..] == args[i + 2..] && name == arg;
        s := s.(global := s.global + [name, args[i + 1]]);
        i := i + 2;
        continue;
      }
      if !s.seenVerb {
        if arg != "retry" {
          return None;
        }
        s := s.(seenVerb := true);
        i := i + 1;
        continue;
      }
      if arg == "--discard-worktree-changes" {
        s := s.(discard := true);
      } else if arg == "--confirm" {
        s := s.(confirm := true);
      } else if Dashed(arg) {
        return None;
      } else {
        s := s.(positionals := s.positionals + [arg]);
      }
      i := i + 1;
    }
    assert args[|args|..] == [];
    r := RetryDone(s);
  }

  // ---------------------------------------------------------------------------
  // They agree
  // ---------------------------------------------------------------------------

  /** What stands after the first "--". */
  function Literal(args: Args): Args {
    if args == [] then [] else if args[0] == "--" then args[1..] else Literal(args[1..])
  }

  function DropRetryFlags(operands: Args): Args {
    if operands == [] then []
    else DropRetryFlags(operands[..|operands| - 1]) + if RetryFlag(operands[|operands| - 1]) then [] else [operands[|operands| - 1]]
  }

  /** The states of the two parsers after the same arguments. */
  predicate InStep(p: Parsed, s: RetryState) {
    && p.global == s.global && p.verb == (if s.seenVerb then "retry" else "")
    && DropRetryFlags(p.operands) == s.positionals && (!s.seenVerb ==> p.operands == [])
  }

  lemma OneOperandMore(operands: Args, arg: string)
    ensures DropRetryFlags(operands + [arg]) == DropRetryFlags(operands) + if RetryFlag(arg) then [] else [arg]
  {
    assert (operands + [arg])[..|operands|] == operands;
  }

  lemma ValuesAreNotDashes(args: Args)
    requires HasValue(args) && args[0] != "--"
    ensures Literal(args) == Literal(args[2..])
  {
    assert args[1] != "--" && args[1..][1..] == args[2..];
  }

  /** The router's result says what the retry parser's end state says; `literal` came after "--". */
  predicate SameMeaning(routed: Option<Parsed>, end: RetryState, literal: Args) {
    && routed.Some? && routed.value.verb == "retry" && routed.value.global == end.global
    && |literal| <= |routed.value.operands|
    && var before := |routed.value.operands| - |literal|;
       routed.value.operands[before..] == literal && DropRetryFlags(routed.value.operands[..before]) + literal == end.positionals
  }

  lemma EndsAgree(p: Parsed, s: RetryState, literal: Args)
    requires InStep(p, s) && s.seenVerb
    ensures SameMeaning(Some(p.(operands := p.operands + literal)), s.(positionals := s.positionals + literal), literal)
  {
    var all := p.operands + literal;
    assert all[..|p.operands|] == p.operands && all[|p.operands|..] == literal;
  }

  /** One ordinary argument after the verb: the router keeps it, the retry parser keeps it or notes a flag. */
  function RetryWord(s: RetryState, arg: string): RetryState {
    if arg == "--discard-worktree-changes" then s.(discard := true)
    else if arg == "--confirm" then s.(confirm := true)
    else s.(positionals := s.positionals + [arg])
  }

  lemma WordStep(p: Parsed, s: RetryState, args: Args)
    requires InStep(p, s) && s.seenVerb && args != [] && args[0] != "--" && !InlineGlobal(args[0]) && !BareGlobal(args[0])
    requires RetryScan(args, s).Some?
    ensures Route(args, p) == Route(args[1..], Word(p, args[0])) && RetryScan(args, s) == RetryScan(args[1..], RetryWord(s, args[0]))
    ensures InStep(Word(p, args[0]), RetryWord(s, args[0]))
  {
    hide InlineGlobal, BareGlobal;
    OneOperandMore(p.operands, args[0]);
    assert p.operands + [] == p.operands && s.positionals + [] == s.positionals;
  }

  lemma VerbStep(p: Parsed, s: RetryState, args: Args)
    requires InStep(p, s) && !s.seenVerb && args != [] && args[0] != "--" && !InlineGlobal(args[0]) && !BareGlobal(args[0])
    requires RetryScan(args, s).Some?
    ensures Route(args, p) == Route(args[1..], p.(verb := "retry")) && RetryScan(args, s) == RetryScan(args[1..], s.(seenVerb := true))
    ensures InStep(p.(verb := "retry"), s.(seenVerb := true))
  {
    hide InlineGlobal, BareGlobal;
  }

  /** From states in step, whatever the retry parser accepts the router accepts too, to the same effect. */
  lemma {:induction false} ScansAgree(args: Args, p: Parsed, s: RetryState)
    requires InStep(p, s) && RetryScan(args, s).Some? && RetryScan(args, s).value.seenVerb
    ensures SameMeaning(Route(args, p), RetryScan(args, s).value, Literal(args))
    decreases |args|
  {
    hide InlineGlobal, BareGlobal, SameMeaning;
    if args == [] {
      EndsAgree(p, s, []);
      assert p.operands + [] == p.operands && s.positionals + [] == s.positionals;
    } else if args[0] == "--" {
      EndsAgree(p, s, args[1..]);
    } else if InlineGlobal(args[0]) {
      ScansAgree(args[1..], p.(global := p.global + [args[0]]), s.(global := s.global + [args[0]]));
    } else if BareGlobal(args[0]) {
      ValuesAreNotDashes(args);
      ScansAgree(args[2..], p.(global := p.global + [args[0], args[1]]), s.(global := s.global + [args[0], args[1]]));
    } else if !s.seenVerb {
      VerbStep(p, s, args);
      ScansAgree(args[1..], p.(verb := "retry"), s.(seenVerb := true));
    } else {
      WordStep(p, s, args);
      ScansAgree(args[1..], Word(p, args[0]), RetryWord(s, args[0]));
    }
  }

  /**
   Whenever the retry parser accepts, the router accepts with the verb retry, the same global flags and the
   same selector.
   */
  lemma ParsersAgree(args: Args)
    requires RetryParse(args).Some?
    ensures var retry := RetryParse(args).value;
            var literal := Literal(args);
            var routed := Route(args, NOTHING);
            && routed.Some? && routed.value.verb == "retry" && routed.value.global == retry.global
            && |literal| <= |routed.value.operands|
            && var before := |routed.value.operands| - |literal|;
               var left := DropRetryFlags(routed.value.operands[..before]) + literal;
               routed.value.operands[before..] == literal && |left| == 1 && TrimSpace(left[0]) == retry.selector != ""
  {
    ScansAgree(args, NOTHING, NO_RETRY);
  }

  // ---------------------------------------------------------------------------
  // Exactly when the retry parser accepts
  // ---------------------------------------------------------------------------

  /** The arguments before "--" that belong to no global flag. */
  function Ordinary(args: Args): Args
    decreases |args|
  {
    if args == [] || args[0] == "--" then []
    else if InlineGlobal(args[0]) then Ordinary(args[1..])
    else if BareGlobal(args[0]) && HasValue(args) then Ordinary(args[2..])
    else [args[0]] + Ordinary(args[1..])
  }

  /** Every global flag before "--" has its value. */
  predicate GlobalsOk(args: Args)
    decreases |args|
  {
    if args == [] || args[0] == "--" then true
    else if InlineGlobal(args[0]) then GlobalsOk(args[1..])
    else if BareGlobal(args[0]) then HasValue(args) && GlobalsOk(args[2..])
    else GlobalsOk(args[1..])
  }

  /** The well-formed global flags before "--", in order. */
  function Globals(args: Args): Args
    decreases |args|
  {
    if args == [] || args[0] == "--" then []
    else if InlineGlobal(args[0]) then [args[0]] + Globals(args[1..])
    else if BareGlobal(args[0]) && HasValue(args) then [args[0], args[1]] + Globals(args[2..])
    else Globals(args[1..])
  }

  predicate AllKnown(words: Args) {
    forall i :: 0 <= i < |words| ==> !Dashed(words[i]) || RetryFlag(words[i])
  }

  lemma {:induction false} OneOperandInFront(arg: string, operands: Args)
    ensures DropRetryFlags([arg] + operands) == (if RetryFlag(arg) then [] else [arg]) + DropRetryFlags(operands)
    decreases |operands|
  {
    var all := [arg] + operands;
    if operands == [] {
      assert all == [arg] && all[..0] == [];
    } else {
      assert all[..|all| - 1] == [arg] + operands[..|operands| - 1];
      OneOperandInFront(arg, operands[..|operands| - 1]);
    }
  }

  lemma KnownInFront(arg: string, words: Args)
    ensures AllKnown([arg] + words) <==> (!Dashed(arg) || RetryFlag(arg)) && AllKnown(words)
  {
    var all := [arg] + words;
    assert all[0] == arg && all[1..] == words;
    assert forall i :: 0 <= i < |words| ==> all[i + 1] == words[i];
  }

  /** After the verb: the scan and the routing, said about the arguments alone. */
  lemma {:induction false} AfterVerb(args: Args, s: RetryState, p: Parsed)
    requires s.seenVerb && p.verb == "retry"
    ensures Route(args, p).Some? <==> GlobalsOk(args)
    ensures RetryScan(args, s).Some? <==> GlobalsOk(args) && AllKnown(Ordinary(args))
    ensures RetryScan(args, s).Some? ==>
              var end := RetryScan(args, s).value;
              end.seenVerb && end.positionals == s.positionals + DropRetryFlags(Ordinary(args)) + Literal(args)
    decreases |args|
  {
    hide InlineGlobal, BareGlobal, Dashed, AllKnown;
    if args == [] || args[0] == "--" {
      NothingLeft(args, s);
    } else if InlineGlobal(args[0]) {
      AfterVerb(args[1..], s.(global := s.global + [args[0]]), p.(global := p.global + [args[0]]));
    } else if BareGlobal(args[0]) {
      if HasValue(args) {
        ValuesAreNotDashes(args);
        AfterVerb(args[2..], s.(global := s.global + [args[0], args[1]]), p.(global := p.global + [args[0], args[1]]));
      }
    } else {
      AfterVerb(args[1..], RetryWord(s, args[0]), Word(p, args[0]));
      KnownInFront(args[0], Ordinary(args[1..]));
      OneOperandInFront(args[0], Ordinary(args[1..]));
      OneWordScanned(s.positionals, args[0], DropRetryFlags(Ordinary(args[1..])), Literal(args));
    }
  }

  lemma NothingLeft(args: Args, s: RetryState)
    ensures AllKnown([]) && s.positionals + DropRetryFlags([]) + [] == s.positionals
    ensures args != [] && args[0] == "--" ==>
              s.positionals + DropRetryFlags([]) + Literal(args) == s.positionals + args[1..]
  {
    assert s.positionals + [] == s.positionals;
  }

  lemma OneWordScanned(before: Args, word: string, rest: Args, literal: Args)
    ensures before + [word] + rest + literal == before + ([word] + rest) + literal
    ensures before + rest + literal == before + ([] + rest) + literal
  {
    assert [] + rest == rest;
  }

  /**
   The retry parser accepts exactly what the router accepts with retry as its first word, known flags and one
   loop id.
   */
  lemma {:induction false} BeforeVerb(args: Args, s: RetryState, p: Parsed)
    requires !s.seenVerb && s.positionals == [] && p.verb == ""
    ensures var words := Ordinary(args);
            RetryScan(args, s).Some? && RetryScan(args, s).value.seenVerb
            <==> Route(args, p).Some? && words != [] && words[0] == "retry" && AllKnown(words[1..])
    ensures RetryScan(args, s).Some? && RetryScan(args, s).value.seenVerb ==>
              RetryScan(args, s).value.positionals == DropRetryFlags(Ordinary(args)[1..]) + Literal(args)
    decreases |args|
  {
    hide InlineGlobal, BareGlobal, AllKnown;
    if args == [] || args[0] == "--" {
    } else if InlineGlobal(args[0]) {
      BeforeVerb(args[1..], s.(global := s.global + [args[0]]), p.(global := p.global + [args[0]]));
    } else if BareGlobal(args[0]) {
      if HasValue(args) {
        ValuesAreNotDashes(args);
        BeforeVerb(args[2..], s.(global := s.global + [args[0], args[1]]), p.(global := p.global + [args[0], args[1]]));
      }
    } else {
      var rest := Ordinary(args[1..]);
      assert Ordinary(args) == [args[0]] + rest && ([args[0]] + rest)[1..] == rest;
      if args[0] == "retry" {
        AfterVerb(args[1..], s.(seenVerb := true), p.(verb := "retry"));
        var end := DropRetryFlags(rest);
        assert [] + end + Literal(args) == end + Literal(args);
      }
    }
  }

  /** Whatever the scan gets through, it notes each flag exactly when it is there, and keeps all global flags in order. */
  lemma {:induction false} ScanNotesFlags(args: Args, s: RetryState)
    requires RetryScan(args, s).Some?
    ensures var end := RetryScan(args, s).value;
            && (end.discard <==> s.discard || "--discard-worktree-changes" in Ordinary(args))
            && (end.confirm <==> s.confirm || "--confirm" in Ordinary(args))
            && end.global == s.global + Globals(args)
    decreases |args|
  {
    hide InlineGlobal, BareGlobal, Dashed, HasValue;
    if args == [] || args[0] == "--" {
      assert s.global + [] == s.global;
    } else if InlineGlobal(args[0]) {
      ScanNotesFlags(args[1..], s.(global := s.global + [args[0]]));
      assert s.global + [args[0]] + Globals(args[1..]) == s.global + ([args[0]] + Globals(args[1..]));
    } else if BareGlobal(args[0]) {
      TwoMore(args);
      ScanNotesFlags(args[2..], s.(global := s.global + [args[0], args[1]]));
      assert s.global + [args[0], args[1]] + Globals(args[2..]) == s.global + ([args[0], args[1]] + Globals(args[2..]));
    } else {
      ScanNotesFlags(args[1..], if s.seenVerb then RetryWord(s, args[0]) else s.(seenVerb := true));
    }
  }

  lemma TwoMore(args: Args)
    ensures HasValue(args) ==> |args| >= 2
  {
  }

  /** When the retry parser accepts, and what it then says: the loop id, each flag exactly when given, all global flags. */
  lemma RetryAcceptsIff(args: Args)
    ensures var words := Ordinary(args);
            RetryParse(args).Some? <==>
              && Route(args, NOTHING).Some? && words != [] && words[0] == "retry" && AllKnown(words[1..])
              && var ids := DropRetryFlags(words[1..]) + Literal(args);
                 |ids| == 1 && TrimSpace(ids[0]) != ""
    ensures RetryParse(args).Some? ==>
              var words, retry := Ordinary(args), RetryParse(args).value;
              && words != [] && DropRetryFlags(words[1..]) + Literal(args) != []
              && retry.selector == TrimSpace((DropRetryFlags(words[1..]) + Literal(args))[0])
              && (retry.discard <==> "--discard-worktree-changes" in words)
              && (retry.confirm <==> "--confirm" in words)
              && retry.global == Globals(args)
  {
    BeforeVerb(args, NO_RETRY, NOTHING);
    if RetryScan(args, NO_RETRY).Some? {
      ScanNotesFlags(args, NO_RETRY);
      assert [] + Globals(args) == Globals(args);
    }
  }

  // ---------------------------------------------------------------------------
  // Global flags can stand anywhere
  // ---------------------------------------------------------------------------

  /** The arguments without the well-formed global flags before "--". */
  function WithoutGlobals(args: Args): Args
    decreases |args|
  {
    if args == [] || args[0] == "--" then args
    else if InlineGlobal(args[0]) then WithoutGlobals(args[1..])
    else if BareGlobal(args[0]) && HasValue(args) then WithoutGlobals(args[2..])
    else [args[0]] + WithoutGlobals(args[1..])
  }

  lemma {:induction false} GlobalsDoNotMatter(args: Args, p: Parsed, global: Args)
    requires Route(args, p).Some?
    ensures Route(WithoutGlobals(args), p.(global := global)) == Some(Route(args, p).value.(global := global))
    ensures Route(args, p).value.global == p.global + Globals(args)
    decreases |args|
  {
    if args == [] || args[0] == "--" {
      assert p.global + [] == p.global;
    } else if InlineGlobal(args[0]) {
      GlobalsDoNotMatter(args[1..], p.(global := p.global + [args[0]]), global);
      assert p.global + [args[0]] + Globals(args[1..]) == p.global + ([args[0]] + Globals(args[1..]));
    } else if BareGlobal(args[0]) {
      GlobalsDoNotMatter(args[2..], p.(global := p.global + [args[0], args[1]]), global);
      assert p.global + [args[0], args[1]] + Globals(args[2..]) == p.global + ([args[0], args[1]] + Globals(args[2..]));
    } else {
      var rest := [args[0]] + WithoutGlobals(args[1..]);
      assert rest[0] == args[0] && rest[1..] == WithoutGlobals(args[1..]);
      if p.verb == "" && TopLevelFlag(args[0]) {
        GlobalsDoNotMatter(args[1..], p.(verb := args[0]), global);
      } else {
        GlobalsDoNotMatter(args[1..], Word(p, args[0]), global);
      }
    }
  }

  /**
   Removing every global flag changes neither verb nor operands, and the router kept exactly those flags, in
   order.
   */
  lemma GlobalFlagsMoveFreely(args: Args)
    requires Route(args, NOTHING).Some?
    ensures var p := Route(args, NOTHING).value;
            Route(WithoutGlobals(args), NOTHING) == Some(Parsed(p.verb, p.operands, [])) && p.global == Globals(args)
  {
    GlobalsDoNotMatter(args, NOTHING, []);
    assert [] + Globals(args) == Globals(args);
  }

  // ---------------------------------------------------------------------------
  // What the router answers
  // ---------------------------------------------------------------------------

  /** Empty words before the verb are passed over. */
  function FromVerb(words: Args): Args {
    if words != [] && words[0] == "" then FromVerb(words[1..]) else words
  }

  predicate NoFlags(words: Args) {
    forall i :: 0 <= i < |words| ==> !Dashed(words[i])
  }

  /** Once the verb is known the router keeps every ordinary word, unless it is a flag that the verb does not own. */
  lemma {:induction false} RoutedAfterVerb(args: Args, p: Parsed)
    requires p.verb != ""
    ensures Route(args, p) ==
            if GlobalsOk(args) && (OwnsFlags(p.verb) || NoFlags(Ordinary(args)))
            then Some(Parsed(p.verb, p.operands + Ordinary(args) + Literal(args), p.global + Globals(args))) else None
    decreases |args|
  {
    hide InlineGlobal, BareGlobal, Dashed, OwnsFlags, HasValue, NoFlags;
    if args == [] || args[0] == "--" {
      NoWordsLeft(p, args);
    } else if InlineGlobal(args[0]) {
      RoutedAfterVerb(args[1..], p.(global := p.global + [args[0]]));
      assert p.global + [args[0]] + Globals(args[1..]) == p.global + ([args[0]] + Globals(args[1..]));
    } else if BareGlobal(args[0]) {
      TwoMore(args);
      if HasValue(args) {
        ValuesAreNotDashes(args);
        RoutedAfterVerb(args[2..], p.(global := p.global + [args[0], args[1]]));
        assert p.global + [args[0], args[1]] + Globals(args[2..]) == p.global + ([args[0], args[1]] + Globals(args[2..]));
      }
    } else {
      NoFlagsInFront(args[0], Ordinary(args[1..]));
      RoutedAfterVerb(args[1..], Word(p, args[0]));
      OneWordScanned(p.operands, args[0], Ordinary(args[1..]), Literal(args));
    }
  }

  lemma NoWordsLeft(p: Parsed, args: Args)
    ensures NoFlags([]) && p.operands + [] + Literal(args) == p.operands + Literal(args) && p.global + [] == p.global
    ensures p.operands + [] + [] == p.operands
  {
    assert p.operands + [] == p.operands;
  }

  lemma NoFlagsInFront(word: string, words: Args)
    ensures NoFlags([word] + words) <==> !Dashed(word) && NoFlags(words)
  {
    var all := [word] + words;
    assert all[0] == word && all[1..] == words;
    assert forall i :: 0 <= i < |words| ==> all[i + 1] == words[i];
  }

  /** The words that count: the ordinary ones from the verb on, then everything after "--". */
  function Words(args: Args): Args {
    FromVerb(Ordinary(args)) + Literal(args)
  }

  /** The verb is no flag but a top-level one, and flags follow only a verb that owns them. */
  predicate FlagsAllowed(words: Args) {
    words == [] || ((!Dashed(words[0]) || TopLevelFlag(words[0])) && (OwnsFlags(words[0]) || NoFlags(words[1..])))
  }

  lemma {:induction false} RoutedBeforeVerb(args: Args, p: Parsed)
    requires p.verb == "" && p.operands == []
    ensures var words := Words(args);
            Route(args, p) ==
            if GlobalsOk(args) && words != [] && words[0] != "" && FlagsAllowed(FromVerb(Ordinary(args)))
            then Some(Parsed(words[0], words[1..], p.global + Globals(args))) else None
    decreases |args|
  {
    hide InlineGlobal, BareGlobal, HasValue, NoFlags;
    if args == [] || args[0] == "--" {
      VerbFromLiteral(p, args);
    } else if InlineGlobal(args[0]) {
      RoutedBeforeVerb(args[1..], p.(global := p.global + [args[0]]));
      assert p.global + [args[0]] + Globals(args[1..]) == p.global + ([args[0]] + Globals(args[1..]));
    } else if BareGlobal(args[0]) {
      TwoMore(args);
      if HasValue(args) {
        ValuesAreNotDashes(args);
        RoutedBeforeVerb(args[2..], p.(global := p.global + [args[0], args[1]]));
        assert p.global + [args[0], args[1]] + Globals(args[2..]) == p.global + ([args[0], args[1]] + Globals(args[2..]));
      }
    } else {
      var rest := Ordinary(args[1..]);
      assert ([args[0]] + rest)[1..] == rest;
      if args[0] == "" {
        RoutedBeforeVerb(args[1..], p);
      } else {
        RoutedAfterVerb(args[1..], p.(verb := args[0]));
        assert ([args[0]] + rest + Literal(args))[1..] == rest + Literal(args);
        assert [] + rest == rest;
      }
    }
  }

  lemma VerbFromLiteral(p: Parsed, args: Args)
    ensures [] + Literal(args) == Literal(args) && p.global + [] == p.global
    ensures p.operands == [] && Literal(args) != [] ==> p.operands + Literal(args)[1..] == Literal(args)[1..]
  {
  }

  /**
   The router accepts exactly when every global flag has its value, there is a verb, and
   flags stand only where they may; it then gives the verb, everything after it, and the
   global flags, all in order.
   */
  lemma RouterAnswers(args: Args)
    ensures var words := Words(args);
            Route(args, NOTHING) ==
            if GlobalsOk(args) && words != [] && words[0] != "" && FlagsAllowed(FromVerb(Ordinary(args)))
            then Some(Parsed(words[0], words[1..], Globals(args))) else None
  {
    RoutedBeforeVerb(args, NOTHING);
    assert [] + Globals(args) == Globals(args);
  }
}
