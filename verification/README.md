# API-call tracing core, modelled in Dafny

This project models the core of the API-tracing plugin of a hypervisor-based
introspection platform. Two components are modelled:

- **The parameter Extractor.** Shallow extraction reads the raw 64-bit word of
  every top-level parameter of an intercepted function. It follows one of two
  calling conventions. On x64 the first four parameters are in rcx, rdx, r8
  and r9, and the rest are in 8-byte stack slots starting at rsp + 0x28. On x86
  every parameter is on the stack at rsp + (i + 1) * 4. Deep extraction then
  follows pointer-typed (composite) parameters through guest memory. Each
  composite level costs one 8-byte dereference, and primitive fields are
  decoded at the address that dereference yields. The result is a tree that
  mirrors the parameter schema.
- **FunctionHook.** This is the breakpoint lifecycle of one traced
  (module, function) pair. `hookFunction` resolves the symbol, installs a
  breakpoint, replaces the held handle and appends the process's cr3 to the
  list of hooked processes. The breakpoint callback ignores hits from
  processes that were never hooked. For the others it logs a hit record and,
  when the signature has parameters, one `Parameter` record per extracted
  top-level parameter. `teardown` removes the handle it holds.

The external collaborators are plain data:

- Guest memory is a set of maps keyed by (virtual address, page-table root).
  A missing key is an unreadable address.
- The register snapshot is an `InterruptEvent` value.
- The symbol table is a map.
- Breakpoints form a registry of live handles with fresh ids.
- The log is the list of records each call emits.

Failures are `Result` values: an unknown symbol, a refused breakpoint, or an
unreadable guest address. The C++ code raises these as exceptions.

Files, one module each: `words.dfy` (uint64 words and wrapping addition),
`results.dfy`, `constants.dfy`, `parameters.dfy` (schema and result tree),
`introspection.dfy`, `extractor.dfy`, `extractor_properties.dfy`,
`extractor_unittest.dfy` (the unit test's fixtures as lemmas), `hex_format.dfy`,
`log.dfy`, `function_hook.dfy` and `function_hook_properties.dfy`.

The Extractor's implementation file (Extractor.h / Extractor.cpp) is not part of
this model. Its behaviour is modelled from the unit test that pins it down.
ConstantDefinitions.h is not part of this model either. The constants follow
the conventions the test describes: `stackParameterOffsetX64` = 0x28 (return
address plus the 32-byte register home area), `stackParameterOffsetX86` = 4,
`maxRegisterParameterCount` = 4, and an 8-byte x64 stack slot
(`x64AddressWidth / byteSize`).

Facts about the code that shape the model:

- Shallow extraction returns a list of words, not nodes. The test compares it
  against a `std::vector<uint64_t>` (Extractor_Unittest.cpp:189-207).
- `hookedProcesses` is a vector (FunctionHook.cpp:42), so hooking a process
  twice records it twice.
- The callback logs top-level parameters only, one `Parameter` record each
  (FunctionHook.cpp:65-75). A composite parameter logs its own datum, the one
  its node holds after expansion, and its fields are not logged.
- An extraction failure escapes the callback after the hit record has been
  written (FunctionHook.cpp:49-58). The model returns it as an `Err` response
  alongside that one record.

## Model

| member | source | states |
|---|---|---|
| Extractor.GetShallowExtractedParams | plugins/apitracing/test/Extractor_Unittest.cpp:130-169 | Succeeds exactly when every parameter's calling-convention location can be read in the hit's address space. The result then has one word per schema, in schema order, each the word at that parameter's location. A failure reports an unreadable location. |
| ExtractorProperties.EmptySchemaListYieldsNothing | plugins/apitracing/test/Extractor_Unittest.cpp:200-218 | An empty signature yields an empty result under both x64 and x86. |
| ExtractorProperties.X64RegisterParameters | plugins/apitracing/test/Extractor_Unittest.cpp:105-110 | Under x64, parameters 0 to 3 are rcx, rdx, r8 and r9, in that order. |
| ExtractorProperties.X64RegisterOnlySignature | plugins/apitracing/test/Extractor_Unittest.cpp:105-110 | Under x64, a signature of at most four parameters always succeeds and yields the matching prefix of rcx, rdx, r8, r9, whatever guest memory holds. |
| ExtractorProperties.X64StackParameters | plugins/apitracing/test/Extractor_Unittest.cpp:147-159 | Under x64, parameter i >= 4 is the word at rsp + 0x28 + (i - 4) * 8, read with the hit's cr3. |
| ExtractorProperties.X64StackSlotsConsecutive | plugins/apitracing/test/Extractor_Unittest.cpp:149-158 | Consecutive x64 stack parameters sit in consecutive 8-byte slots. Addresses wrap modulo 2^64. |
| ExtractorProperties.X86StackParameters | plugins/apitracing/test/Extractor_Unittest.cpp:161-169 | Under x86, parameter i is the word at rsp + (i + 1) * 4, read with the hit's cr3. |
| ExtractorProperties.X86IgnoresRegisters | plugins/apitracing/test/Extractor_Unittest.cpp:161-169 | Under x86 no register is used: hits that agree on cr3 and rsp extract the same result. |
| Extractor.DecodeLeaf | plugins/apitracing/test/Extractor_Unittest.cpp:126-127 | A nested primitive field keeps its name and has no children. A narrow-string field holds the narrow string stored at the address in that address space, a wide-string field the wide string stored there, and any other field the word stored there. Decoding succeeds exactly when that entry exists, and otherwise fails with a memory-access error for that address. |
| Extractor.ExpandPointer | plugins/apitracing/test/Extractor_Unittest.cpp:171-181 | An expanded composite mirrors its schema at every depth: same names, one child per backing parameter in order, an empty datum on composite nodes, and a datum of the declared kind on leaves. |
| Extractor.ExtractFields | plugins/apitracing/test/Extractor_Unittest.cpp:171-181 | The fields of a composite node come out one per backing parameter, in order, each mirroring its schema. |
| Extractor.ExtractField | plugins/apitracing/test/Extractor_Unittest.cpp:171-181 | A single field, composite or primitive, mirrors its schema. |
| Extractor.GetDeepExtractParameters | plugins/apitracing/test/Extractor_Unittest.cpp:240-253 | Keeps the number and order of top-level parameters. A primitive passes through as its shallow word with its name and no children. A composite is the pointer expansion of its word. The call succeeds exactly when every composite expansion succeeds, and otherwise fails with the error of one that does not. |
| Extractor.ExtractParameters | plugins/apitracing/src/lib/FunctionHook.cpp:57 | Runs shallow extraction, then deep extraction in the hit's address space. It succeeds exactly when every parameter location is readable and every composite parameter's expansion in the hit's cr3 succeeds. It then yields one node per schema with the schema's name. Each composite node is the pointer expansion of its parameter's word in the hit's cr3, and each primitive node holds the word at its calling-convention location. |
| ExtractorProperties.PrimitiveSignatureReadsNothing | plugins/apitracing/test/Extractor_Unittest.cpp:83-88 | When no parameter is composite, deep extraction succeeds and is the same under any guest memory, so it reads none. |
| ExtractorProperties.PointerChainExtraction | plugins/apitracing/test/Extractor_Unittest.cpp:122-128 | For a single-field pointer chain of any depth, each composite level costs exactly one dereference. The leaf is decoded at the address the last dereference yields, and the tree has empty data and one child at every composite level. |
| ExtractorProperties.BrokenPointerChainFails | plugins/apitracing/test/Extractor_Unittest.cpp:122-128 | A chain with an unreadable link fails with that link's error and never yields a partial tree. |
| ExtractorProperties.UnreadableChainLeafFails | plugins/apitracing/test/Extractor_Unittest.cpp:122-128 | A chain whose pointers can all be followed but whose leaf cannot be decoded fails with a memory-access error for the leaf address, rather than yielding a tree with a made-up leaf value. |
| ExtractorUnittest.ZeroParametersBothWidths | plugins/apitracing/test/Extractor_Unittest.cpp:200-218 | The test's empty signature gives an empty result for both widths. |
| ExtractorUnittest.SixParameters64Bit | plugins/apitracing/test/Extractor_Unittest.cpp:230-238 | The test's six x64 parameters come out as the four register values followed by the two stack words. |
| ExtractorUnittest.FiveParameters32Bit | plugins/apitracing/test/Extractor_Unittest.cpp:220-228 | The test's five x86 parameters come out as the five stack words. |
| ExtractorUnittest.NestedStructDeepExtraction | plugins/apitracing/test/Extractor_Unittest.cpp:240-253 | FileHandle passes through unchanged. The chain 0xDEADBEEF, then 0xFFFFFFF1, then 0xFFFFFFF2 yields ObjectAttributesOne and ObjectAttributesTwo with empty data and one child each, and the leaf holds "extract me". |
| HexFormat.LowerHex | plugins/apitracing/src/lib/FunctionHook.cpp:51 | The Gla rendering is non-empty lower-case hex with no leading zero. |
| HexFormat.LowerHexRoundTrip | plugins/apitracing/src/lib/FunctionHook.cpp:51 | Reading the Gla rendering back as hex gives the address. |
| HexFormat.CanonicalIsLowerHex | plugins/apitracing/src/lib/FunctionHook.cpp:51 | Every hex string without leading zeros is the rendering of the number it denotes, so the rendering is one-to-one. |
| Introspection.CreateBreakpoint | plugins/apitracing/src/lib/FunctionHook.cpp:39-40 | Creating a breakpoint succeeds exactly when the address can be patched. It yields a fresh handle for that address and cr3, adds it to the live set, and leaves the rest of the platform state alone. |
| FunctionHooks.NewFunctionHook | plugins/apitracing/src/lib/FunctionHook.cpp:17-32 | A new hook stores the module name, function name, architecture and parameter list it is given. It traces no process and holds no breakpoint. |
| FunctionHookProperties.FreshHookIgnoresEveryHit | plugins/apitracing/src/lib/FunctionHook.cpp:17-61 | A freshly constructed hook logs nothing for any hit and answers Continue. |
| FunctionHooks.HookFunction | plugins/apitracing/src/lib/FunctionHook.cpp:34-43 | Succeeds exactly when the symbol resolves and its entry point can be patched. It then appends cr3 to the end of the hooked processes, leaving the earlier entries unchanged, and replaces the held handle with a fresh one for the resolved entry point and cr3. On failure, hook and platform are unchanged. |
| FunctionHooks.HookCallback | plugins/apitracing/src/lib/FunctionHook.cpp:45-61 | Every normal return is Continue. A hit from an unhooked cr3 emits nothing and extracts nothing. A hooked hit with an empty signature emits only the hit record. Otherwise it emits the hit record and then one Parameter record per extracted parameter, in order. The callback fails exactly when extraction fails, and then only the hit record is emitted. |
| FunctionHooks.LogParameterList | plugins/apitracing/src/lib/FunctionHook.cpp:63-77 | Emits one Parameter record per top-level parameter, in order, each carrying that parameter's Name and Value. |
| FunctionHooks.Teardown | plugins/apitracing/src/lib/FunctionHook.cpp:79-82 | Removes exactly the held breakpoint from the live set. |
| FunctionHookProperties.HookThenTeardownRestoresBreakpoints | plugins/apitracing/src/lib/FunctionHook.cpp:40 | Teardown right after a successful hookFunction restores the previous set of live breakpoints. |
| FunctionHookProperties.SecondHookLeavesFirstBreakpointLive | plugins/apitracing/src/lib/FunctionHook.cpp:40-42 | After hooking two processes, both stay hooked, the handles differ, and teardown leaves the first breakpoint live. |
| FunctionHookProperties.RepeatedHookRecordsProcessTwice | plugins/apitracing/src/lib/FunctionHook.cpp:42 | Hooking the same process twice records its cr3 twice. |
| FunctionHookProperties.HookedProcessHitsAreLogged | plugins/apitracing/src/lib/FunctionHook.cpp:42-51 | hookFunction never stops tracing a process. After it succeeds, a hit from the newly hooked process is logged with the hit record first. |
| FunctionHookProperties.ParameterLogKeepsNamesAndData | plugins/apitracing/src/lib/FunctionHook.cpp:63-77 | Two extraction results give the same parameter log exactly when they agree on each top-level name and datum. Backing parameters are not logged. |
| FunctionHookProperties.HitRecordGlaReadsBack | plugins/apitracing/src/lib/FunctionHook.cpp:49-51 | The hit record's Gla field holds hex digits that read back as the faulting address. |
| FunctionHookProperties.FileHandleHitLogsOneParameter | plugins/apitracing/src/lib/FunctionHook.cpp:45-76 | Example: a FileHandle parameter in rcx = 0xCAFEBABE produces the hit record and one Parameter record {Name: FileHandle, Value: 0xCAFEBABE}, and the callback answers Continue. |

## Left out

- Width masking: `parameterSize` is carried in the schema but not applied to the words read. The test's values already fit their declared sizes, so masking is not evidenced.
- Extractor.ExtractFields: the byte offset of sibling fields within one composite node is untested. Every sibling is taken at the same base address.
- Extractor.DecodeLeaf: a nested primitive of integer kind, or of no declared kind, is read as the 8-byte word at the base address. Only the string case is evidenced. Wide strings are read from a separate map of decoded strings.
- The type-name aliases (LPSTR_64, UNICODE_WSTR_64, int, __int64, ...) are reduced to the closed enumeration `LeafKind`. Real Windows structure layouts are not modelled.
- Extractor.GetDeepExtractParameters: a failed read fails the whole call. The Extractor's source is not part of this model, so this rule is not confirmed by code.
- FunctionHooks.Teardown: requires a held handle. The source dereferences the handle unconditionally, so calling teardown before any hookFunction is undefined behaviour there.
- The callback's answer type has the platform's other answers represented by one placeholder, `Deactivate`; the tracer only ever answers `Continue`.
- Introspection.CreateBreakpoint: injection failure is modelled as a set of addresses that cannot be patched. Interrupt delivery and instruction patching are not modelled. A breakpoint stays live until its handle's `remove` is called, even after the hook drops its last reference to that handle (FunctionHook.cpp:40 only overwrites the shared pointer); what the platform does when that reference goes is not visible, so this is an assumption of the model.
- Logger construction, the file-tag binding and the non-owning `weak_from_this` callback binding are configuration and lifetime plumbing. They are not modelled.
- The logging sink and its boolean, signed and floating-point field kinds are not modelled. This core only logs strings and extracted data.
- The composite datum `Empty` stands for the default-constructed `data` variant of a composite node (the test's `.data = {}`). Which alternative that variant holds is not visible; since every alternative is logged as a field, it is most likely the first one (probably uint64 0). The model keeps it abstract as `Empty`, so the logged form of a composite top-level parameter's Value field is not modelled.
- Concurrency is not modelled: guest memory is a snapshot taken at the hit, so it cannot change during one extraction.
