/** FunctionHook: the breakpoint lifecycle of one traced (module, function)
    pair and the dispatch of its breakpoint hits. The hook is a value; each
    operation returns the hook, platform and log records it produces. */
module FunctionHooks {
  import opened Words
  import opened Results
  import opened Parameters
  import opened Introspection
  import opened Extractor
  import opened Log
  import opened HexFormat

  /** What a breakpoint callback tells the platform. The tracer only ever
      answers `Continue`; `Deactivate` stands for the platform's other answers. */
  datatype BpResponse = Continue | Deactivate

  /** One hook's state. The extractor collaborator is reduced to the guest
      architecture (pointer width) it was constructed with. */
  datatype FunctionHook = FunctionHook(
    moduleName: string,
    functionName: string,
    architecture: Architecture,
    parameterInformation: seq<ParameterInformation>,
    hookedProcesses: seq<U64>,
    interruptEvent: Option<Breakpoint>)

  /** The constructor: nothing hooked yet, no breakpoint held. */
  function NewFunctionHook(moduleName: string, functionName: string, architecture: Architecture,
                           parameterInformation: seq<ParameterInformation>): (h: FunctionHook)
    ensures forall cr3: U64 :: cr3 !in h.hookedProcesses
    ensures h.interruptEvent.None?
    ensures h.moduleName == moduleName && h.functionName == functionName
    ensures h.architecture == architecture && h.parameterInformation == parameterInformation
  {
    FunctionHook(moduleName, functionName, architecture, parameterInformation, [], None)
  }

  /** The outcome of hookFunction: the new hook and platform state, and
      whether the call returned normally. */
  datatype HookStep = HookStep(hook: FunctionHook, platform: Platform, status: Result<()>)

  /** The entry point hookFunction resolves, if any. */
  ghost predicate Resolvable(h: FunctionHook, p: Platform, moduleBase: U64, cr3: U64) {
    (moduleBase, cr3, h.functionName) in p.symbols
  }

  /** FunctionHook::hookFunction: resolve the function, put a breakpoint on
      its entry point for `cr3`, hold the new handle in place of the old one,
      then record `cr3` as hooked. A failure leaves everything unchanged. */
  function HookFunction(h: FunctionHook, p: Platform, moduleBase: U64, cr3: U64): (r: HookStep)
    requires ValidPlatform(p)
    ensures ValidPlatform(r.platform)
    ensures r.status.Ok? <==>
      Resolvable(h, p, moduleBase, cr3) && p.symbols[(moduleBase, cr3, h.functionName)] !in p.unpatchable
    ensures r.status.Err? ==> r.hook == h && r.platform == p
    ensures r.status.Ok? ==>
      && r.hook.hookedProcesses == h.hookedProcesses + [cr3]
      && r.hook.interruptEvent.Some?
      && var b := r.hook.interruptEvent.value;
      && b.address == p.symbols[(moduleBase, cr3, h.functionName)]
      && b.cr3 == cr3
      && b !in p.live
      && r.platform.live == p.live + {b}
      && r.hook == h.(hookedProcesses := r.hook.hookedProcesses, interruptEvent := Some(b))
      && r.platform.symbols == p.symbols && r.platform.unpatchable == p.unpatchable
  {
    match TranslateUserlandSymbolToVA(p, moduleBase, cr3, h.functionName)
    case Err(e) => HookStep(h, p, Err(e))
    case Ok(entrypoint) =>
      match CreateBreakpoint(p, entrypoint, cr3)
      case Err(e) => HookStep(h, p, Err(e))
      case Ok((p', b)) =>
        HookStep(h.(interruptEvent := Some(b), hookedProcesses := h.hookedProcesses + [cr3]), p', Ok(()))
  }

  /** The "hookCallback hit" record: module, function and the faulting
      linear address in lower-case hex. */
  function HitRecord(h: FunctionHook, gla: U64): LogRecord {
    LogRecord("hookCallback hit", [
      Field("Module", Text(h.moduleName)),
      Field("Function", Text(h.functionName)),
      Field("Gla", Text(LowerHex(gla)))])
  }

  /** The "Parameter" record of one extracted top-level parameter. */
  function ParameterRecord(e: ExtractedParameterInformation): LogRecord {
    LogRecord("Parameter", [Field("Name", Text(e.name)), Field("Value", e.data)])
  }

  /** FunctionHook::logParameterList: one record per top-level parameter, in
      order; backing parameters are not logged. */
  function LogParameterList(params: seq<ExtractedParameterInformation>): (records: seq<LogRecord>)
    ensures |records| == |params|
    ensures forall k :: 0 <= k < |params| ==> records[k] == ParameterRecord(params[k])
  {
    if params == [] then [] else [ParameterRecord(params[0])] + LogParameterList(params[1..])
  }

  /** The records one breakpoint hit emits and the callback's answer; an
      `Err` answer is an extraction failure escaping the callback. */
  datatype CallbackOutcome = CallbackOutcome(records: seq<LogRecord>, response: Result<BpResponse>)

  /** FunctionHook::hookCallback: hits from address spaces that were never
      hooked are ignored; otherwise a hit record is written and, when the
      signature has parameters, one record per extracted parameter. */
  function HookCallback(h: FunctionHook, ev: InterruptEvent, mem: GuestMemory): (r: CallbackOutcome)
    ensures r.response.Ok? ==> r.response.value == Continue
    ensures ev.cr3 !in h.hookedProcesses ==> r == CallbackOutcome([], Ok(Continue))
    ensures ev.cr3 in h.hookedProcesses ==> |r.records| >= 1 && r.records[0] == HitRecord(h, ev.gla)
    ensures ev.cr3 in h.hookedProcesses && h.parameterInformation == [] ==> r == CallbackOutcome([HitRecord(h, ev.gla)], Ok(Continue))
    ensures r.response.Err? <==>
      ev.cr3 in h.hookedProcesses && h.parameterInformation != [] &&
      ExtractParameters(h.architecture, ev, mem, h.parameterInformation).Err?
    ensures r.response.Err? ==> r.records == [HitRecord(h, ev.gla)]
    ensures ev.cr3 in h.hookedProcesses && r.response.Ok? && h.parameterInformation != [] ==>
      var extracted := ExtractParameters(h.architecture, ev, mem, h.parameterInformation).value;
      && |r.records| == 1 + |h.parameterInformation|
      && forall k :: 0 <= k < |extracted| ==> r.records[k + 1] == ParameterRecord(extracted[k])
  {
    if ev.cr3 in h.hookedProcesses then
      var hit := HitRecord(h, ev.gla);
      if h.parameterInformation == [] then CallbackOutcome([hit], Ok(Continue))
      else
        match ExtractParameters(h.architecture, ev, mem, h.parameterInformation)
        case Err(e) => CallbackOutcome([hit], Err(e))
        case Ok(extracted) =>
          var records := [hit] + LogParameterList(extracted);
          assert forall k :: 0 <= k < |extracted| ==> records[k + 1] == ParameterRecord(extracted[k]);
          CallbackOutcome(records, Ok(Continue))
    else
      CallbackOutcome([], Ok(Continue))
  }

  /** FunctionHook::teardown: removes the breakpoint currently held. The
      handle must exist: the source dereferences it unconditionally. */
  function Teardown(h: FunctionHook, p: Platform): (p': Platform)
    requires h.interruptEvent.Some?
    ensures h.interruptEvent.value !in p'.live
    ensures forall b :: b in p'.live <==> b in p.live && b != h.interruptEvent.value
    ensures p'.symbols == p.symbols && p'.unpatchable == p.unpatchable && p'.nextId == p.nextId
  {
    RemoveBreakpoint(p, h.interruptEvent.value)
  }
}
