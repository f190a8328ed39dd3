/** What the emitted C does when it runs: one function at a time, between labels, calls
    and returns, under the generated dispatch table (psx_dispatch_game_compiled).

    Interrupt checks, timing calls, slicing and debug hooks are taken to do nothing. */
module Runtime {
  import opened Words
  import opened Isa
  import opened Emit
  import Translate

  /** The C-visible state: registers and memory, `cpu->pc`, the saved branch condition and
      call target (C locals), the alias body's `entry` argument, and charged cycles. */
  datatype Host = Host(cpu: Cpu, pc: Word, cond: bool, saved: Word, entry: Word, cycles: int)

  datatype Event =
    | Reached(dest: int)
    | Jumped(dest: int)
    | Called(callee: Word)
    | EnteredBody(host: Word)
    | Returned
    | BadEntry
    | Fatal
    | NoMeaning

  /** Straight-line execution stops at the next label, jump, call or return; `rest` is the
      code that follows. */
  datatype Outcome = Outcome(event: Event, rest: seq<Stmt>, h: Host)

  function SetPc(h: Host, a: Word): Host {
    h.(pc := a)
  }

  function TakeArm(arm: Arm, rest: seq<Stmt>, h: Host): Outcome {
    match arm
    case GotoArm(a) => Outcome(Jumped(a), rest, h)
    case PublishArm(a) => Outcome(Returned, rest, SetPc(h, a))
  }

  /** The first case for `v`, if any. */
  function FindCase(cases: seq<Case>, v: Word): Option<Case> {
    if cases == [] then None
    else if cases[0].value == v then Some(cases[0])
    else FindCase(cases[1..], v)
  }

  function TakeCase(k: Case, rest: seq<Stmt>, h: Host): Outcome {
    Outcome(Jumped(k.dest), rest, h.(cycles := h.cycles + k.charge))
  }

  function WriteLink(h: Host, r: Reg, v: Word): Host {
    h.(cpu := h.cpu.(gpr := h.cpu.gpr[r := v]))
  }

  /** What one statement does: go on to the next, or stop with an event. */
  datatype Effect = Goes(h: Host) | Stops(event: Event, h: Host)

  function StopWith(o: Outcome): Effect {
    Stops(o.event, o.h)
  }

  function EnterBy(conts: seq<Case>, overlay: bool, start: Word, h: Host): Effect {
    if h.pc == 0 then Goes(h)
    else
      var k := FindCase(conts, h.pc);
      if k.Some? then StopWith(TakeCase(k.value, [], SetPc(h, 0)))
      else if !overlay || h.pc == start then Goes(SetPc(h, 0))
      else Stops(BadEntry, h)
  }

  function SwitchBy(r: Reg, cases: seq<Case>, h: Host): Effect {
    var v := h.cpu.gpr[r];
    var k := FindCase(cases, v);
    if k.Some? then StopWith(TakeCase(k.value, [], h)) else Stops(Returned, SetPc(h, v))
  }

  /** A statement C gives no meaning to ends the run: nothing can be said of what follows. */
  function PerformOn(i: Translate.CStmt, h: Host): Effect {
    var r := Translate.Run(i, h.cpu);
    if r == None then Stops(NoMeaning, h) else Goes(h.(cpu := r.value))
  }

  function Execute(s: Stmt, h: Host): Effect {
    match s
    case Label(a) => Stops(Reached(a), h)
    case Charge(n) => Goes(h.(cycles := h.cycles + n))
    case Perform(i) => PerformOn(i, h)
    case PerformIf(f, i) => if Translate.CondOf(f, h.cpu) then PerformOn(i, h) else Goes(h)
    case SetLink(r, v) => Goes(WriteLink(h, r, v))
    case SaveCond(f) => Goes(h.(cond := Translate.CondOf(f, h.cpu)))
    case SaveTarget(r) => Goes(h.(saved := h.cpu.gpr[r]))
    case IfSaved(taken, notTaken) => StopWith(TakeArm(if h.cond then taken else notTaken, [], h))
    case IfNow(f, taken, notTaken) => StopWith(TakeArm(if Translate.CondOf(f, h.cpu) then taken else notTaken, [], h))
    case SwitchOn(r, cases) => SwitchBy(r, cases, h)
    case Goto(a) => Stops(Jumped(a), h)
    case Publish(a) => Stops(Returned, SetPc(h, a))
    case PublishReg(r) => Stops(Returned, SetPc(h, h.cpu.gpr[r]))
    case PublishSaved => Stops(Returned, SetPc(h, h.saved))
    case CallNext(a) => Stops(Called(a), h)
    case CallBody(host, entry) => Stops(EnteredBody(host), h.(entry := entry))
    case EntrySwitch(conts, overlay, start) => EnterBy(conts, overlay, start, h)
    case EntryGoto(entries) => if h.entry in entries then Stops(Jumped(h.entry), h) else Stops(Returned, h)
    case ReturnStmt => Stops(Returned, h)
    case UnknownDispatch => Stops(Fatal, h)
  }

  function RunStmts(s: seq<Stmt>, h: Host): Outcome {
    if s == [] then Outcome(Returned, [], h)
    else
      var e := Execute(s[0], h);
      if e.Goes? then RunStmts(s[1..], e.h) else Outcome(e.event, s[1..], e.h)
  }

  /** A statement in front of others. */
  lemma RunCons(s: Stmt, rest: seq<Stmt>, h: Host)
    ensures var e := Execute(s, h);
            RunStmts([s] + rest, h) == if e.Goes? then RunStmts(rest, e.h) else Outcome(e.event, rest, e.h)
  {
    hide Execute;
    assert ([s] + rest)[0] == s && ([s] + rest)[1..] == rest;
  }

  /** The code behind the first occurrence of a label. */
  function AfterLabel(s: seq<Stmt>, a: int): Option<seq<Stmt>> {
    if s == [] then None else if s[0] == Label(a) then Some(s[1..]) else AfterLabel(s[1..], a)
  }

  // ---- programs ----

  /** An emitted C function: `func_<start>`, or the shared body of a host's aliases. */
  datatype CodeId = Func(start: Word) | Body(host: Word)

  /** All emitted functions, and the owner of each continuation. */
  datatype Program = Program(text: map<CodeId, seq<Stmt>>, owner: map<Word, Word>)

  /** A C stack frame: the function it runs and the code it has still to run. */
  datatype Frame = Frame(id: CodeId, rest: seq<Stmt>)

  datatype Reason = Finished | DispatchMiss | ForeignEntry | UnknownFunction | NoSuchLabel | NoSuchFunction | Undefined

  datatype Config =
    | Running(frames: seq<Frame>, h: Host)
    | Dispatching(h: Host)
    | Stopped(reason: Reason, h: Host)

  function Enter(p: Program, frames: seq<Frame>, id: CodeId, h: Host): Config {
    if id in p.text then Running(frames + [Frame(id, p.text[id])], h) else Stopped(NoSuchFunction, h)
  }

  /** The dispatch table: function entries with `cpu->pc` cleared, then continuations with
      `cpu->pc` set, into their owner. */
  function Dispatch(p: Program, h: Host): Config {
    if h.pc == 0 then Stopped(Finished, h)
    else if Func(h.pc) in p.text then Enter(p, [], Func(h.pc), SetPc(h, 0))
    else if h.pc in p.owner then Enter(p, [], Func(p.owner[h.pc]), h)
    else Stopped(DispatchMiss, h)
  }

  /** What an event of the top frame does to the stack. */
  function AfterEvent(p: Program, below: seq<Frame>, id: CodeId, o: Outcome): Config {
    match o.event
    case Reached(_) => Running(below + [Frame(id, o.rest)], o.h)
    case Jumped(a) =>
      var code := if id in p.text then AfterLabel(p.text[id], a) else None;
      if code.Some? then Running(below + [Frame(id, code.value)], o.h) else Stopped(NoSuchLabel, o.h)
    case Called(callee) => Enter(p, below + [Frame(id, o.rest)], Func(callee), o.h)
    case EnteredBody(host) => Enter(p, below + [Frame(id, o.rest)], Body(host), o.h)
    case Returned => Running(below, o.h)
    case BadEntry => Stopped(ForeignEntry, o.h)
    case Fatal => Stopped(UnknownFunction, o.h)
    case NoMeaning => Stopped(Undefined, o.h)
  }

  /** One step: run the top frame to its next event, or dispatch. */
  function Step(p: Program, c: Config): Config {
    match c
    case Stopped(_, _) => c
    case Dispatching(h) => Dispatch(p, h)
    case Running(frames, h) =>
      if frames == [] then Dispatching(h)
      else
        var top := frames[|frames| - 1];
        AfterEvent(p, frames[..|frames| - 1], top.id, RunStmts(top.rest, h))
  }

  function Steps(p: Program, c: Config, n: nat): Config {
    if n == 0 then c else Step(p, Steps(p, c, n - 1))
  }
}
