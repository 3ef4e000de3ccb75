/**
 The one-shot bootstrap code store (internal/api/bootstrap_codes.go).  The random code, or
 the failure to draw one, and the clock reading are inputs; clocks are integers and may go
 backwards unless a lemma says otherwise.
 */
module BootstrapCodes {
  import opened Wrappers

  type Codes = map<string, int>

  function Purged(codes: Codes, now: int): Codes {
    map c | c in codes && now < codes[c] :: codes[c]
  }

  datatype MintResult = Minted(code: string, expiresAt: int) | RandomFailed | StoreFull

  function MintOf(codes: Codes, drawn: Option<string>, now: int, ttl: int, maxSize: nat): (Codes, MintResult) {
    if drawn.None? then (codes, RandomFailed)
    else
      var kept := Purged(codes, now);
      if |kept| >= maxSize then (kept, StoreFull) else (kept[drawn.value := now + ttl], Minted(drawn.value, now + ttl))
  }

  predicate Blank(c: char) {
    c == ' ' || c == '\t' || c == '\n' || c == '\r'
  }

  function TrimFront(s: string): string {
    if s != "" && Blank(s[0]) then TrimFront(s[1..]) else s
  }

  function TrimBack(s: string): string {
    if s != "" && Blank(s[|s| - 1]) then TrimBack(s[..|s| - 1]) else s
  }

  function TrimCode(s: string): string {
    TrimBack(TrimFront(s))
  }

  method TrimBootstrapCode(text: string) returns (code: string)
    ensures code == TrimCode(text)
    ensures code != "" ==> !Blank(code[|code| - 1])
  {
    code := text;
    while |code| > 0 && Blank(code[0])
      invariant TrimFront(code) == TrimFront(text)
      decreases |code|
    {
      code := code[1..];
    }
    while |code| > 0
      invariant TrimBack(code) == TrimCode(text)
      decreases |code|
    {
      if !Blank(code[|code| - 1]) {
        break;
      }
      code := code[..|code| - 1];
    }
  }

  function ExchangeOf(codes: Codes, text: string, now: int): (Codes, bool) {
    var code := TrimCode(text);
    if code == "" then (codes, false)
    else
      var kept := Purged(codes, now);
      (kept - {code}, code in kept)
  }

  class Store {
    const ttl: int
    const maxSize: nat
    var codes: Codes

    constructor (ttl: int, maxSize: nat)
      ensures codes == map[] && this.ttl == ttl && this.maxSize == maxSize
    {
      this.ttl, this.maxSize, codes := ttl, maxSize, map[];
    }

    method PurgeExpired(now: int)
      modifies this
      ensures codes == Purged(old(codes), now)
    {
      var rest := codes.Keys;
      while rest != {}
        invariant rest <= codes.Keys <= old(codes).Keys
        invariant forall c :: c in codes ==> codes[c] == old(codes)[c] && (c in rest || now < codes[c])
        invariant forall c :: c in old(codes) && c !in codes ==> old(codes)[c] <= now
        decreases |rest|
      {
        var code :| code in rest;
        rest := rest - {code};
        if now >= codes[code] {
          codes := codes - {code};
        }
      }
    }

    method Mint(drawn: Option<string>, now: int) returns (r: MintResult)
      modifies this
      ensures (codes, r) == MintOf(old(codes), drawn, now, ttl, maxSize)
    {
      if drawn.None? {
        return RandomFailed;
      }
      var expiresAt := now + ttl;
      PurgeExpired(now);
      if |codes| >= maxSize {
        return StoreFull;
      }
      codes := codes[drawn.value := expiresAt];
      r := Minted(drawn.value, expiresAt);
    }

    method Exchange(text: string, now: int) returns (ok: bool)
      modifies this
      ensures (codes, ok) == ExchangeOf(old(codes), text, now)
    {
      var code := TrimBootstrapCode(text);
      if code == "" {
        return false;
      }
      PurgeExpired(now);
      if code !in codes || now >= codes[code] {
        codes := codes - {code};
        return false;
      }
      codes := codes - {code};
      ok := true;
    }
  }

  // ---------------------------------------------------------------------------
  // Histories
  // ---------------------------------------------------------------------------

  datatype Call = MintCall(drawn: Option<string>, now: int) | ExchangeCall(text: string, now: int)

  /** A call and whether it succeeded. */
  datatype Entry = Entry(call: Call, ok: bool)

  datatype World = World(codes: Codes, log: seq<Entry>)

  function Apply(w: World, call: Call, ttl: int, maxSize: nat): World {
    match call
    case MintCall(drawn, now) =>
      var m := MintOf(w.codes, drawn, now, ttl, maxSize);
      World(m.0, w.log + [Entry(call, m.1.Minted?)])
    case ExchangeCall(text, now) =>
      var x := ExchangeOf(w.codes, text, now);
      World(x.0, w.log + [Entry(call, x.1)])
  }

  function Exec(calls: seq<Call>, ttl: int, maxSize: nat): World {
    if calls == [] then World(map[], [])
    else Apply(Exec(calls[..|calls| - 1], ttl, maxSize), calls[|calls| - 1], ttl, maxSize)
  }

  predicate MintOfCode(e: Entry, code: string) {
    e.ok && e.call.MintCall? && e.call.drawn == Some(code)
  }

  predicate ExchangeOfCode(e: Entry, code: string) {
    e.ok && e.call.ExchangeCall? && TrimCode(e.call.text) == code
  }

  function Mints(log: seq<Entry>, code: string): nat {
    if log == [] then 0 else Mints(log[..|log| - 1], code) + if MintOfCode(log[|log| - 1], code) then 1 else 0
  }

  function Exchanges(log: seq<Entry>, code: string): nat {
    if log == [] then 0 else Exchanges(log[..|log| - 1], code) + if ExchangeOfCode(log[|log| - 1], code) then 1 else 0
  }

  /** The latest mint of a code that was not exchanged since: when it expires. */
  function Unspent(log: seq<Entry>, code: string, ttl: int): Option<int> {
    if log == [] then None
    else
      var e := log[|log| - 1];
      if MintOfCode(e, code) then Some(e.call.now + ttl)
      else if ExchangeOfCode(e, code) then None
      else Unspent(log[..|log| - 1], code, ttl)
  }

  /** A call that looked at the store, and so purged it. */
  predicate Purges(call: Call) {
    match call
    case MintCall(drawn, _) => drawn.Some?
    case ExchangeCall(text, _) => TrimCode(text) != ""
  }

  /** No purge since the latest mint saw it expired. */
  predicate Unpurged(log: seq<Entry>, code: string, expiresAt: int) {
    log == [] || MintOfCode(log[|log| - 1], code)
    || ((Purges(log[|log| - 1].call) ==> log[|log| - 1].call.now < expiresAt) && Unpurged(log[..|log| - 1], code, expiresAt))
  }

  lemma LogGrows(w: World, call: Call, ttl: int, maxSize: nat)
    ensures var t := Apply(w, call, ttl, maxSize);
            |t.log| == |w.log| + 1 && t.log[..|w.log|] == w.log && t.log[|w.log|].call == call
  {
  }

  predicate Held(w: World, code: string, ttl: int) {
    var live := Unspent(w.log, code, ttl);
    && (code in w.codes <==> live.Some? && Unpurged(w.log, code, live.value))
    && (code in w.codes ==> w.codes[code] == live.value)
  }

  lemma StepKeepsHeld(w: World, call: Call, ttl: int, maxSize: nat, code: string)
    requires Held(w, code, ttl)
    ensures Held(Apply(w, call, ttl, maxSize), code, ttl)
  {
    LogGrows(w, call, ttl, maxSize);
  }

  /** What the store holds, from the log alone: the unspent codes that no purge has seen expired. */
  lemma {:induction false} StoreIsTheLog(calls: seq<Call>, ttl: int, maxSize: nat, code: string)
    ensures Held(Exec(calls, ttl, maxSize), code, ttl)
    decreases |calls|
  {
    hide Held, Apply;
    if calls == [] {
      EmptyHolds(code, ttl);
    } else {
      StoreIsTheLog(calls[..|calls| - 1], ttl, maxSize, code);
      StepKeepsHeld(Exec(calls[..|calls| - 1], ttl, maxSize), calls[|calls| - 1], ttl, maxSize, code);
    }
  }

  lemma EmptyHolds(code: string, ttl: int)
    ensures Held(World(map[], []), code, ttl)
  {
  }

  predicate Balanced(w: World, code: string) {
    Exchanges(w.log, code) + (if code in w.codes then 1 else 0) <= Mints(w.log, code)
  }

  lemma StepKeepsBalance(w: World, call: Call, ttl: int, maxSize: nat, code: string)
    requires Balanced(w, code)
    ensures Balanced(Apply(w, call, ttl, maxSize), code)
  {
    LogGrows(w, call, ttl, maxSize);
  }

  lemma {:induction false} SubsetSize(a: set<string>, b: set<string>)
    requires a <= b
    ensures |a| <= |b|
    decreases |a|
  {
    if a != {} {
      var x :| x in a;
      SubsetSize(a - {x}, b - {x});
    }
  }

  lemma StepKeepsCapacity(w: World, call: Call, ttl: int, maxSize: nat)
    requires |w.codes| <= maxSize
    ensures |Apply(w, call, ttl, maxSize).codes| <= maxSize
  {
    var after := Apply(w, call, ttl, maxSize).codes;
    var kept := Purged(w.codes, call.now);
    if call.MintCall? && call.drawn.Some? && |kept| < maxSize {
      assert after.Keys == kept.Keys + {call.drawn.value};
    } else {
      SubsetSize(after.Keys, w.codes.Keys);
    }
  }

  /** With any clock, a code is exchanged at most as often as it was minted, and the store stays within its capacity. */
  lemma {:induction false} OneExchangePerMint(calls: seq<Call>, ttl: int, maxSize: nat, code: string)
    ensures var w := Exec(calls, ttl, maxSize);
            Exchanges(w.log, code) + (if code in w.codes then 1 else 0) <= Mints(w.log, code) && |w.codes| <= maxSize
    decreases |calls|
  {
    hide Apply;
    if calls != [] {
      var before := Exec(calls[..|calls| - 1], ttl, maxSize);
      OneExchangePerMint(calls[..|calls| - 1], ttl, maxSize, code);
      StepKeepsBalance(before, calls[|calls| - 1], ttl, maxSize, code);
      StepKeepsCapacity(before, calls[|calls| - 1], ttl, maxSize);
    }
  }

  /**
   With any clock, an exchange succeeds exactly for an unspent code that neither this call nor an earlier purge
   finds expired.
   */
  lemma ExchangeSucceedsIff(calls: seq<Call>, ttl: int, maxSize: nat, text: string, now: int)
    ensures var w := Exec(calls, ttl, maxSize);
            var code := TrimCode(text);
            var live := Unspent(w.log, code, ttl);
            ExchangeOf(w.codes, text, now).1 <==>
              code != "" && live.Some? && now < live.value && Unpurged(w.log, code, live.value)
  {
    StoreIsTheLog(calls, ttl, maxSize, TrimCode(text));
  }

  /** The codes that a mint at `now` still has to keep. */
  function Unexpired(codes: Codes, now: int): set<string> {
    set c | c in codes && now < codes[c]
  }

  /**
   A mint succeeds exactly when a code was drawn and fewer than the capacity are held
   unexpired; it then holds just those and the drawn one, which expires after the lifetime.
   */
  lemma MintSucceedsIff(codes: Codes, drawn: Option<string>, now: int, ttl: int, maxSize: nat)
    ensures var (after, r) := MintOf(codes, drawn, now, ttl, maxSize);
            var kept := Unexpired(codes, now);
            && (r.Minted? <==> drawn.Some? && |kept| < maxSize)
            && (r.Minted? ==>
                  && r == Minted(drawn.value, now + ttl) && after.Keys == kept + {drawn.value} && after[drawn.value] == now + ttl
                  && forall c :: c in kept && c != drawn.value ==> after[c] == codes[c])
            && (r.RandomFailed? ==> drawn.None? && after == codes)
            && (r.StoreFull? ==> drawn.Some? && after.Keys == kept && forall c :: c in kept ==> after[c] == codes[c])
  {
    assert Purged(codes, now).Keys == Unexpired(codes, now);
  }

  predicate AllBlank(s: string) {
    forall i :: 0 <= i < |s| ==> Blank(s[i])
  }

  lemma {:induction false} FrontIsBlank(s: string) returns (front: string)
    ensures s == front + TrimFront(s) && AllBlank(front)
    ensures TrimFront(s) != "" ==> !Blank(TrimFront(s)[0])
    decreases |s|
  {
    front := "";
    if s != "" && Blank(s[0]) {
      var rest := FrontIsBlank(s[1..]);
      front := [s[0]] + rest;
    }
  }

  lemma {:induction false} BackIsBlank(s: string) returns (back: string)
    ensures s == TrimBack(s) + back && AllBlank(back)
    ensures TrimBack(s) != "" ==> !Blank(TrimBack(s)[|TrimBack(s)| - 1])
    decreases |s|
  {
    back := "";
    if s != "" && Blank(s[|s| - 1]) {
      var rest := BackIsBlank(s[..|s| - 1]);
      back := rest + [s[|s| - 1]];
    }
  }

  /** Trimming takes off exactly the blanks at both ends. */
  lemma TrimmedCode(text: string) returns (front: string, back: string)
    ensures text == front + TrimCode(text) + back && AllBlank(front) && AllBlank(back)
    ensures var code := TrimCode(text); code != "" ==> !Blank(code[0]) && !Blank(code[|code| - 1])
  {
    front := FrontIsBlank(text);
    back := BackIsBlank(TrimFront(text));
    assert TrimFront(text)[..|TrimCode(text)|] == TrimCode(text);
  }

  predicate ClockNeverGoesBack(calls: seq<Call>, now: int) {
    && (forall i, j :: 0 <= i < j < |calls| ==> calls[i].now <= calls[j].now)
    && (forall i :: 0 <= i < |calls| ==> calls[i].now <= now)
  }

  lemma {:induction false} LogIsTheCalls(calls: seq<Call>, ttl: int, maxSize: nat)
    ensures var log := Exec(calls, ttl, maxSize).log;
            |log| == |calls| && forall i :: 0 <= i < |calls| ==> log[i].call == calls[i]
    decreases |calls|
  {
    hide MintOf, ExchangeOf;
    if calls != [] {
      LogIsTheCalls(calls[..|calls| - 1], ttl, maxSize);
    }
  }

  lemma {:induction false} EarlyPurgesSawNothing(log: seq<Entry>, code: string, expiresAt: int, now: int)
    requires now < expiresAt && forall i :: 0 <= i < |log| ==> log[i].call.now <= now
    ensures Unpurged(log, code, expiresAt)
    decreases |log|
  {
    if log != [] {
      EarlyPurgesSawNothing(log[..|log| - 1], code, expiresAt, now);
    }
  }

  /**
   With a clock that never goes back purging cannot be observed: an exchange succeeds exactly when the latest
   mint is unexpired and unspent.
   */
  lemma {:induction false} PurgingIsInvisible(calls: seq<Call>, ttl: int, maxSize: nat, text: string, now: int)
    requires ClockNeverGoesBack(calls, now)
    ensures var live := Unspent(Exec(calls, ttl, maxSize).log, TrimCode(text), ttl);
            ExchangeOf(Exec(calls, ttl, maxSize).codes, text, now).1 <==> TrimCode(text) != "" && live.Some? && now < live.value
  {
    ExchangeSucceedsIff(calls, ttl, maxSize, text, now);
    LogIsTheCalls(calls, ttl, maxSize);
    var log := Exec(calls, ttl, maxSize).log;
    var live := Unspent(log, TrimCode(text), ttl);
    if live.Some? && now < live.value {
      EarlyPurgesSawNothing(log, TrimCode(text), live.value, now);
    }
  }
}
