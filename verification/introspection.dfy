/** The introspection platform as the tracer sees it: guest memory per
    address space, the register snapshot of a breakpoint hit, the userland
    symbol table and the breakpoint registry. All of them are external
    collaborators; each is reduced to the data its answers depend on. */
module Introspection {
  import opened Words
  import opened Results

  /** Guest memory of every address space at the instant of one hit, keyed
      by (virtual address, page-table root). A missing key is an unmapped
      or unreadable address. */
  datatype GuestMemory = GuestMemory(
    words: map<(U64, U64), U64>,
    asciiStrings: map<(U64, U64), string>,
    wideStrings: map<(U64, U64), string>)

  /** read64VA: the 8-byte word at `va` in address space `dtb`. */
  function Read64VA(mem: GuestMemory, va: U64, dtb: U64): Result<U64> {
    if (va, dtb) in mem.words then Ok(mem.words[(va, dtb)]) else Err(MemoryAccess(va, dtb))
  }

  /** extractStringAtVA: the narrow string at `va` in address space `dtb`. */
  function ExtractStringAtVA(mem: GuestMemory, va: U64, dtb: U64): Result<string> {
    if (va, dtb) in mem.asciiStrings then Ok(mem.asciiStrings[(va, dtb)]) else Err(MemoryAccess(va, dtb))
  }

  /** The UTF-16 string at `va` in address space `dtb`, already decoded. */
  function ExtractUnicodeStringAtVA(mem: GuestMemory, va: U64, dtb: U64): Result<string> {
    if (va, dtb) in mem.wideStrings then Ok(mem.wideStrings[(va, dtb)]) else Err(MemoryAccess(va, dtb))
  }

  /** The parts of an IInterruptEvent the tracer reads. */
  datatype InterruptEvent = InterruptEvent(
    cr3: U64,
    gla: U64,
    rcx: U64,
    rdx: U64,
    r8: U64,
    r9: U64,
    rsp: U64)

  /** A breakpoint handle as createBreakpoint hands it out. */
  datatype Breakpoint = Breakpoint(id: nat, address: U64, cr3: U64)

  /** The platform state hookFunction and teardown act on: the userland
      symbol table keyed by (module base, cr3, symbol name), the addresses at
      which breakpoint injection fails, the live breakpoints and the next
      fresh handle id. */
  datatype Platform = Platform(
    symbols: map<(U64, U64, string), U64>,
    unpatchable: set<U64>,
    live: set<Breakpoint>,
    nextId: nat)

  /** Every live handle was issued before `nextId`, so new ones are fresh. */
  ghost predicate ValidPlatform(p: Platform) {
    forall b :: b in p.live ==> b.id < p.nextId
  }

  /** translateUserlandSymbolToVA. */
  function TranslateUserlandSymbolToVA(p: Platform, moduleBase: U64, cr3: U64, symbol: string): Result<U64> {
    if (moduleBase, cr3, symbol) in p.symbols then Ok(p.symbols[(moduleBase, cr3, symbol)])
    else Err(SymbolNotFound(moduleBase, cr3, symbol))
  }

  /** createBreakpoint: registers a fresh live breakpoint at `va` for `cr3`. */
  function CreateBreakpoint(p: Platform, va: U64, cr3: U64): (r: Result<(Platform, Breakpoint)>)
    requires ValidPlatform(p)
    ensures r.Ok? <==> va !in p.unpatchable
    ensures r.Ok? ==> var (p', b) := r.value;
      && b !in p.live
      && b.address == va && b.cr3 == cr3
      && p'.live == p.live + {b}
      && p'.symbols == p.symbols && p'.unpatchable == p.unpatchable
      && ValidPlatform(p')
  {
    if va in p.unpatchable then Err(BreakpointRefused(va, cr3))
    else
      var b := Breakpoint(p.nextId, va, cr3);
      Ok((p.(live := p.live + {b}, nextId := p.nextId + 1), b))
  }

  /** IBreakpoint::remove. */
  function RemoveBreakpoint(p: Platform, b: Breakpoint): Platform {
    p.(live := p.live - {b})
  }
}
