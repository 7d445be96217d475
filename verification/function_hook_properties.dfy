/** Properties of the FunctionHook lifecycle across several calls: what
    teardown releases after one or two hookFunction calls, how repeated
    hooking is recorded, what a hooked process's hits log, and what the
    parameter log keeps of the extracted tree. */
module FunctionHookProperties {
  import opened Words
  import opened Results
  import opened Parameters
  import opened Introspection
  import opened Extractor
  import opened Log
  import opened HexFormat
  import opened FunctionHooks

  /** Teardown right after a successful hookFunction releases exactly the
      breakpoint it created: the live set is what it was before. */
  lemma HookThenTeardownRestoresBreakpoints(h: FunctionHook, p: Platform, moduleBase: U64, cr3: U64)
    requires ValidPlatform(p)
    requires HookFunction(h, p, moduleBase, cr3).status.Ok?
    ensures var step := HookFunction(h, p, moduleBase, cr3);
      Teardown(step.hook, step.platform).live == p.live
  {
  }

  /** Hooking a second process through the same hook replaces the held
      handle: both processes stay hooked, but teardown releases only the
      second breakpoint and the first stays live. */
  lemma SecondHookLeavesFirstBreakpointLive(h: FunctionHook, p: Platform, base1: U64, cr1: U64, base2: U64, cr2: U64)
    requires ValidPlatform(p)
    requires HookFunction(h, p, base1, cr1).status.Ok?
    requires var s1 := HookFunction(h, p, base1, cr1); HookFunction(s1.hook, s1.platform, base2, cr2).status.Ok?
    ensures var s1 := HookFunction(h, p, base1, cr1);
      var s2 := HookFunction(s1.hook, s1.platform, base2, cr2);
      && cr1 in s2.hook.hookedProcesses && cr2 in s2.hook.hookedProcesses
      && s1.hook.interruptEvent.value != s2.hook.interruptEvent.value
      && s1.hook.interruptEvent.value in Teardown(s2.hook, s2.platform).live
  {
  }

  /** hookedProcesses is a list, not a set: hooking the same process twice
      records it twice. */
  lemma RepeatedHookRecordsProcessTwice(h: FunctionHook, p: Platform, moduleBase: U64, cr3: U64)
    requires ValidPlatform(p)
    requires HookFunction(h, p, moduleBase, cr3).status.Ok?
    requires var s1 := HookFunction(h, p, moduleBase, cr3); HookFunction(s1.hook, s1.platform, moduleBase, cr3).status.Ok?
    ensures var s1 := HookFunction(h, p, moduleBase, cr3);
      var s2 := HookFunction(s1.hook, s1.platform, moduleBase, cr3);
      multiset(s2.hook.hookedProcesses)[cr3] == multiset(h.hookedProcesses)[cr3] + 2
  {
  }

  /** hookFunction never stops tracing a process, and after it succeeds
      every hit in the newly hooked process writes the hit record first. */
  lemma HookedProcessHitsAreLogged(h: FunctionHook, p: Platform, moduleBase: U64, cr3: U64,
                                   ev: InterruptEvent, mem: GuestMemory)
    requires ValidPlatform(p)
    requires ev.cr3 == cr3 || ev.cr3 in h.hookedProcesses
    ensures var step := HookFunction(h, p, moduleBase, cr3);
      step.status.Ok? || ev.cr3 in h.hookedProcesses ==>
        HookCallback(step.hook, ev, mem).records[0] == HitRecord(h, ev.gla)
  {
  }

  /** A freshly constructed hook traces no process, so every hit is
      ignored: nothing is logged and the answer is Continue. */
  lemma FreshHookIgnoresEveryHit(moduleName: string, functionName: string, architecture: Architecture,
                                 parameterInformation: seq<ParameterInformation>, ev: InterruptEvent, mem: GuestMemory)
    ensures HookCallback(NewFunctionHook(moduleName, functionName, architecture, parameterInformation), ev, mem)
         == CallbackOutcome([], Ok(Continue))
  {
  }

  /** The parameter log keeps exactly the names and top-level data of the
      extracted parameters: two extraction results log identically if and
      only if they agree on those, whatever their backing parameters hold. */
  lemma ParameterLogKeepsNamesAndData(ps1: seq<ExtractedParameterInformation>, ps2: seq<ExtractedParameterInformation>)
    ensures LogParameterList(ps1) == LogParameterList(ps2) <==>
      && |ps1| == |ps2|
      && forall k :: 0 <= k < |ps1| ==> ps1[k].name == ps2[k].name && ps1[k].data == ps2[k].data
  {
  }

  /** The Gla field reads back as the faulting address. */
  lemma HitRecordGlaReadsBack(h: FunctionHook, gla: U64)
    ensures var g := HitRecord(h, gla).fields[2];
      && g.key == "Gla" && g.value.Text? && AllHexDigits(g.value.s) && HexValue(g.value.s) == gla
  {
    LowerHexRoundTrip(gla);
  }

  /** One 8-byte handle parameter in rcx: a hit in a hooked process logs the
      hit record and one Parameter record carrying the name and the word. */
  lemma FileHandleHitLogsOneParameter(p: Platform, moduleBase: U64, mem: GuestMemory)
    requires ValidPlatform(p)
    requires var h := NewFunctionHook("ntdll.dll", "NtCreateFile", X64,
                                      [ParameterInformation(Some(UnsignedInteger), "FileHandle", 8, [])]);
      HookFunction(h, p, moduleBase, 0x1337).status.Ok?
    ensures var h := NewFunctionHook("ntdll.dll", "NtCreateFile", X64,
                                     [ParameterInformation(Some(UnsignedInteger), "FileHandle", 8, [])]);
      var hooked := HookFunction(h, p, moduleBase, 0x1337).hook;
      var ev := InterruptEvent(0x1337, 0x7ffe1000, 0xCAFEBABE, 0, 0, 0, 0x420);
      HookCallback(hooked, ev, mem) == CallbackOutcome(
        [HitRecord(hooked, 0x7ffe1000),
         LogRecord("Parameter", [Field("Name", Text("FileHandle")), Field("Value", Unsigned(0xCAFEBABE))])],
        Ok(Continue))
  {
  }
}
