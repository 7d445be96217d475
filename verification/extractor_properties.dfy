/** Properties of the Extractor that relate several calls or quantify over
    every input: the two calling-convention layouts, what deep extraction
    reads and does not read, and the shape of pointer chains. */
module ExtractorProperties {
  import opened Words
  import opened Results
  import opened ConstantDefinitions
  import opened Parameters
  import opened Introspection
  import opened Extractor

  /** An empty signature yields an empty shallow result under both widths. */
  lemma EmptySchemaListYieldsNothing(arch: Architecture, ev: InterruptEvent, mem: GuestMemory)
    ensures GetShallowExtractedParams(arch, ev, mem, []) == Ok([])
  {
  }

  /** x64: whenever shallow extraction succeeds, parameters 0..3 are rcx,
      rdx, r8 and r9, in that order. */
  lemma X64RegisterParameters(ev: InterruptEvent, mem: GuestMemory, schemas: seq<ParameterInformation>)
    requires GetShallowExtractedParams(X64, ev, mem, schemas).Ok?
    ensures var words := GetShallowExtractedParams(X64, ev, mem, schemas).value;
      && (|schemas| > 0 ==> words[0] == ev.rcx)
      && (|schemas| > 1 ==> words[1] == ev.rdx)
      && (|schemas| > 2 ==> words[2] == ev.r8)
      && (|schemas| > 3 ==> words[3] == ev.r9)
  {
  }

  /** x64 with at most four parameters: the registers alone decide the
      result, so it succeeds and ignores guest memory entirely. */
  lemma X64RegisterOnlySignature(ev: InterruptEvent, mem: GuestMemory, schemas: seq<ParameterInformation>)
    requires |schemas| <= maxRegisterParameterCount
    ensures GetShallowExtractedParams(X64, ev, mem, schemas) == Ok([ev.rcx, ev.rdx, ev.r8, ev.r9][..|schemas|])
  {
    assert forall k :: 0 <= k < |schemas| ==> FetchParameter(X64, ev, mem, k).Ok?;
    var words := GetShallowExtractedParams(X64, ev, mem, schemas).value;
    var regs := [ev.rcx, ev.rdx, ev.r8, ev.r9][..|schemas|];
    forall k | 0 <= k < |schemas|
      ensures words[k] == regs[k]
    {
      assert FetchParameter(X64, ev, mem, k) == Ok(words[k]);
    }
    assert words == regs;
  }

  /** x64: parameter i >= 4 is the word at rsp + stackParameterOffsetX64 +
      (i - 4) * 8 in the hit's address space. */
  lemma X64StackParameters(ev: InterruptEvent, mem: GuestMemory, schemas: seq<ParameterInformation>, i: nat)
    requires GetShallowExtractedParams(X64, ev, mem, schemas).Ok?
    requires maxRegisterParameterCount <= i < |schemas|
    ensures var slot := Add(ev.rsp, stackParameterOffsetX64 + (i - maxRegisterParameterCount) * 8);
      && (slot, ev.cr3) in mem.words
      && GetShallowExtractedParams(X64, ev, mem, schemas).value[i] == mem.words[(slot, ev.cr3)]
  {
    assert FetchParameter(X64, ev, mem, i).Ok?;
  }

  /** x86: parameter i is the word at rsp + (i + 1) * stackParameterOffsetX86
      in the hit's address space. */
  lemma X86StackParameters(ev: InterruptEvent, mem: GuestMemory, schemas: seq<ParameterInformation>, i: nat)
    requires GetShallowExtractedParams(X86, ev, mem, schemas).Ok?
    requires i < |schemas|
    ensures var slot := Add(ev.rsp, (i + 1) * stackParameterOffsetX86);
      && (slot, ev.cr3) in mem.words
      && GetShallowExtractedParams(X86, ev, mem, schemas).value[i] == mem.words[(slot, ev.cr3)]
  {
    assert FetchParameter(X86, ev, mem, i).Ok?;
  }

  /** x86 uses no register: two hits that agree on cr3 and rsp extract the
      same parameters whatever rcx, rdx, r8 and r9 hold. */
  lemma X86IgnoresRegisters(ev1: InterruptEvent, ev2: InterruptEvent, mem: GuestMemory, schemas: seq<ParameterInformation>)
    requires ev1.cr3 == ev2.cr3 && ev1.rsp == ev2.rsp
    ensures GetShallowExtractedParams(X86, ev1, mem, schemas) == GetShallowExtractedParams(X86, ev2, mem, schemas)
  {
    X86ShallowFromIgnoresRegisters(ev1, ev2, mem, 0, |schemas|);
  }

  lemma {:induction false} X86ShallowFromIgnoresRegisters(ev1: InterruptEvent, ev2: InterruptEvent, mem: GuestMemory, i: nat, n: nat)
    requires ev1.cr3 == ev2.cr3 && ev1.rsp == ev2.rsp
    requires i <= n
    ensures ShallowFrom(X86, ev1, mem, i, n) == ShallowFrom(X86, ev2, mem, i, n)
    decreases n - i
  {
    if i < n {
      X86ShallowFromIgnoresRegisters(ev1, ev2, mem, i + 1, n);
    }
  }

  /** x64 stack parameters occupy consecutive 8-byte slots: parameter i + 1
      sits one slot above parameter i. */
  lemma X64StackSlotsConsecutive(rsp: U64, i: nat)
    requires i >= maxRegisterParameterCount
    ensures ParameterLocation(X64, rsp, i + 1).address == Add(ParameterLocation(X64, rsp, i).address, x64StackEntrySize)
  {
    var base := stackParameterOffsetX64 + (i - maxRegisterParameterCount) * x64StackEntrySize;
    assert (((rsp + base) % WORD_MODULUS) + 8) % WORD_MODULUS == (rsp + base + 8) % WORD_MODULUS;
  }

  /** A signature of primitive parameters only never touches guest memory
      during deep extraction: each word passes through unchanged under any
      memory contents. */
  lemma PrimitiveSignatureReadsNothing(mem1: GuestMemory, mem2: GuestMemory, shallow: seq<U64>,
                                       schemas: seq<ParameterInformation>, dtb: U64)
    requires |shallow| == |schemas|
    requires forall i :: 0 <= i < |schemas| ==> !IsComposite(schemas[i])
    ensures GetDeepExtractParameters(mem1, shallow, schemas, dtb) == GetDeepExtractParameters(mem2, shallow, schemas, dtb)
    ensures GetDeepExtractParameters(mem1, shallow, schemas, dtb).Ok?
  {
  }

  /** Following `depth` 8-byte pointers from `pointer`, as read64VA does. */
  function FollowPointers(mem: GuestMemory, dtb: U64, pointer: U64, depth: nat): Result<U64>
    decreases depth
  {
    if depth == 0 then Ok(pointer)
    else
      var next :- Read64VA(mem, pointer, dtb);
      FollowPointers(mem, dtb, next, depth - 1)
  }

  /** A single-field pointer chain: one composite level per name, ending in `leaf`. */
  function ChainSchema(names: seq<string>, leaf: ParameterInformation): ParameterInformation {
    if names == [] then leaf
    else ParameterInformation(None, names[0], 8, [ChainSchema(names[1..], leaf)])
  }

  /** The tree a chain extracts to: empty data on every composite level, one
      child each, and the decoded leaf at the bottom. */
  function ChainTree(names: seq<string>, leaf: ExtractedParameterInformation): ExtractedParameterInformation {
    if names == [] then leaf
    else ExtractedParameterInformation(names[0], Empty, [ChainTree(names[1..], leaf)])
  }

  /** Each composite level of a chain costs exactly one pointer dereference,
      and the leaf is decoded at the address the last one yields. */
  lemma {:induction false} PointerChainExtraction(mem: GuestMemory, dtb: U64, pointer: U64, names: seq<string>,
                                                  leaf: ParameterInformation, end: U64)
    requires |names| > 0 && !IsComposite(leaf)
    requires FollowPointers(mem, dtb, pointer, |names|) == Ok(end)
    requires DecodeLeaf(mem, dtb, end, leaf).Ok?
    ensures ExpandPointer(mem, dtb, pointer, ChainSchema(names, leaf))
         == Ok(ChainTree(names, DecodeLeaf(mem, dtb, end, leaf).value))
    decreases |names|
  {
    var next := Read64VA(mem, pointer, dtb).value;
    var tail := names[1..];
    var child := ChainSchema(tail, leaf);
    var decoded := DecodeLeaf(mem, dtb, end, leaf).value;
    assert FollowPointers(mem, dtb, next, |tail|) == Ok(end);
    if tail == [] {
      assert next == end;
      assert ExtractField(mem, dtb, next, child) == Ok(ChainTree(tail, decoded));
    } else {
      PointerChainExtraction(mem, dtb, next, tail, leaf, end);
      assert ExtractField(mem, dtb, next, child) == Ok(ChainTree(tail, decoded));
    }
    assert [child][1..] == [];
    assert ExtractFields(mem, dtb, next, [child][1..]) == Ok([]);
    assert [ChainTree(tail, decoded)] + [] == [ChainTree(tail, decoded)];
    assert ExtractFields(mem, dtb, next, [child]) == Ok([ChainTree(tail, decoded)]);
  }

  /** A chain whose pointers can all be followed but whose leaf cannot be
      decoded fails with the leaf address's error; no value is made up
      for the unreadable leaf. */
  lemma {:induction false} UnreadableChainLeafFails(mem: GuestMemory, dtb: U64, pointer: U64, names: seq<string>,
                                                    leaf: ParameterInformation, end: U64)
    requires |names| > 0 && !IsComposite(leaf)
    requires FollowPointers(mem, dtb, pointer, |names|) == Ok(end)
    requires DecodeLeaf(mem, dtb, end, leaf).Err?
    ensures ExpandPointer(mem, dtb, pointer, ChainSchema(names, leaf)) == Err(MemoryAccess(end, dtb))
    decreases |names|
  {
    var next := Read64VA(mem, pointer, dtb).value;
    var tail := names[1..];
    var child := ChainSchema(tail, leaf);
    assert FollowPointers(mem, dtb, next, |tail|) == Ok(end);
    if tail == [] {
      assert next == end;
      assert ExtractField(mem, dtb, next, child) == Err(MemoryAccess(end, dtb));
    } else {
      UnreadableChainLeafFails(mem, dtb, next, tail, leaf, end);
      assert ExtractField(mem, dtb, next, child) == Err(MemoryAccess(end, dtb));
    }
    assert ExtractFields(mem, dtb, next, [child]) == Err(MemoryAccess(end, dtb));
  }

  /** A chain whose pointers cannot all be followed fails with the error of
      the first unreadable link, never with a partial tree. */
  lemma {:induction false} BrokenPointerChainFails(mem: GuestMemory, dtb: U64, pointer: U64, names: seq<string>,
                                                   leaf: ParameterInformation)
    requires |names| > 0 && !IsComposite(leaf)
    requires FollowPointers(mem, dtb, pointer, |names|).Err?
    ensures ExpandPointer(mem, dtb, pointer, ChainSchema(names, leaf)) == Err(FollowPointers(mem, dtb, pointer, |names|).error)
    decreases |names|
  {
    var tail := names[1..];
    if Read64VA(mem, pointer, dtb).Ok? {
      var next := Read64VA(mem, pointer, dtb).value;
      var child := ChainSchema(tail, leaf);
      if tail == [] {
        assert false;
      }
      BrokenPointerChainFails(mem, dtb, next, tail, leaf);
      assert ExtractField(mem, dtb, next, child) == ExpandPointer(mem, dtb, next, child);
    }
  }
}
