/** The parameter Extractor: shallow extraction of the top-level parameter
    words from registers and stack, and deep extraction that follows
    pointer-typed parameters into guest memory. */
module Extractor {
  import opened Words
  import opened Results
  import opened ConstantDefinitions
  import opened Parameters
  import opened Introspection

  /** The guest's pointer width the Extractor is constructed with. */
  datatype Architecture = X64 | X86

  /** Where a top-level parameter lives on function entry. */
  datatype Location = Register(index: nat) | Stack(address: U64)

  /** The calling-convention layout: under x64 parameters 0..3 are in
      registers and the rest in consecutive 8-byte slots above the home
      area; under x86 every parameter is on the stack above the return
      address. */
  function ParameterLocation(arch: Architecture, rsp: U64, i: nat): Location {
    match arch
    case X64 =>
      if i < maxRegisterParameterCount then Register(i)
      else Stack(Add(rsp, stackParameterOffsetX64 + (i - maxRegisterParameterCount) * x64StackEntrySize))
    case X86 =>
      Stack(Add(rsp, (i + 1) * stackParameterOffsetX86))
  }

  /** The k-th parameter register of the x64 convention. */
  function RegisterParameter(ev: InterruptEvent, k: nat): U64 {
    if k == 0 then ev.rcx
    else if k == 1 then ev.rdx
    else if k == 2 then ev.r8
    else ev.r9
  }

  /** The raw word of top-level parameter `i`, read in the hit's address space. */
  function FetchParameter(arch: Architecture, ev: InterruptEvent, mem: GuestMemory, i: nat): Result<U64> {
    match ParameterLocation(arch, ev.rsp, i)
    case Register(k) => Ok(RegisterParameter(ev, k))
    case Stack(a) => Read64VA(mem, a, ev.cr3)
  }

  /** Parameters `i` up to `n`, in order; the first unreadable one fails the call. */
  function ShallowFrom(arch: Architecture, ev: InterruptEvent, mem: GuestMemory, i: nat, n: nat): (r: Result<seq<U64>>)
    requires i <= n
    ensures r.Ok? <==> forall k :: i <= k < n ==> FetchParameter(arch, ev, mem, k).Ok?
    ensures r.Ok? ==> |r.value| == n - i
    ensures r.Ok? ==> forall k :: i <= k < n ==> FetchParameter(arch, ev, mem, k) == Ok(r.value[k - i])
    ensures r.Err? ==> exists k :: i <= k < n && FetchParameter(arch, ev, mem, k) == Err(r.error)
    decreases n - i
  {
    if i == n then Ok([])
    else
      var head :- FetchParameter(arch, ev, mem, i);
      var tail :- ShallowFrom(arch, ev, mem, i + 1, n);
      Ok([head] + tail)
  }

  /** Extractor::getShallowExtractedParams: one word per top-level schema,
      in schema order, never following backing parameters. */
  function GetShallowExtractedParams(arch: Architecture, ev: InterruptEvent, mem: GuestMemory,
                                     schemas: seq<ParameterInformation>): (r: Result<seq<U64>>)
    ensures r.Ok? <==> forall k :: 0 <= k < |schemas| ==> FetchParameter(arch, ev, mem, k).Ok?
    ensures r.Ok? ==> |r.value| == |schemas|
    ensures r.Ok? ==> forall k :: 0 <= k < |schemas| ==> FetchParameter(arch, ev, mem, k) == Ok(r.value[k])
    ensures r.Err? ==> exists k :: 0 <= k < |schemas| && FetchParameter(arch, ev, mem, k) == Err(r.error)
  {
    ShallowFrom(arch, ev, mem, 0, |schemas|)
  }

  /** A nested primitive field decoded at `address` by its declared kind. */
  function DecodeLeaf(mem: GuestMemory, dtb: U64, address: U64, s: ParameterInformation): (r: Result<ExtractedParameterInformation>)
    ensures r.Ok? ==> r.value.name == s.name && r.value.backingParameters == [] && DecodedAs(s.basicType, r.value.data)
    ensures s.basicType == Some(AsciiString) ==>
      && (r.Ok? <==> (address, dtb) in mem.asciiStrings)
      && (r.Ok? ==> r.value.data == Text(mem.asciiStrings[(address, dtb)]))
    ensures s.basicType == Some(WideString) ==>
      && (r.Ok? <==> (address, dtb) in mem.wideStrings)
      && (r.Ok? ==> r.value.data == Text(mem.wideStrings[(address, dtb)]))
    ensures s.basicType != Some(AsciiString) && s.basicType != Some(WideString) ==>
      && (r.Ok? <==> (address, dtb) in mem.words)
      && (r.Ok? ==> r.value.data == Unsigned(mem.words[(address, dtb)]))
    ensures r.Err? ==> r.error == MemoryAccess(address, dtb)
  {
    match s.basicType
    case Some(AsciiString) =>
      var text :- ExtractStringAtVA(mem, address, dtb);
      Ok(ExtractedParameterInformation(s.name, Text(text), []))
    case Some(WideString) =>
      var text :- ExtractUnicodeStringAtVA(mem, address, dtb);
      Ok(ExtractedParameterInformation(s.name, Text(text), []))
    case _ =>
      var word :- Read64VA(mem, address, dtb);
      Ok(ExtractedParameterInformation(s.name, Unsigned(word), []))
  }

  /** A composite parameter whose value is `pointer`: one 8-byte
      dereference yields the base its fields are extracted at. */
  function ExpandPointer(mem: GuestMemory, dtb: U64, pointer: U64, s: ParameterInformation): (r: Result<ExtractedParameterInformation>)
    requires IsComposite(s)
    ensures r.Ok? ==> Mirrors(r.value, s)
    decreases s, 0
  {
    var base :- Read64VA(mem, pointer, dtb);
    var children :- ExtractFields(mem, dtb, base, s.backingParameters);
    Ok(ExtractedParameterInformation(s.name, Empty, children))
  }

  /** The fields of one composite node, in schema order. Every field is
      taken at the same base address. */
  function ExtractFields(mem: GuestMemory, dtb: U64, base: U64, fields: seq<ParameterInformation>): (r: Result<seq<ExtractedParameterInformation>>)
    ensures r.Ok? ==> |r.value| == |fields|
    ensures r.Ok? ==> forall i :: 0 <= i < |fields| ==> Mirrors(r.value[i], fields[i])
    decreases fields
  {
    if fields == [] then Ok([])
    else
      var first :- ExtractField(mem, dtb, base, fields[0]);
      var rest :- ExtractFields(mem, dtb, base, fields[1..]);
      Ok([first] + rest)
  }

  /** One field: expanded further if composite, decoded if primitive. */
  function ExtractField(mem: GuestMemory, dtb: U64, base: U64, s: ParameterInformation): (r: Result<ExtractedParameterInformation>)
    ensures r.Ok? ==> Mirrors(r.value, s)
    decreases s, 1
  {
    if IsComposite(s) then ExpandPointer(mem, dtb, base, s) else DecodeLeaf(mem, dtb, base, s)
  }

  /** The deep result for one top-level parameter holding `word`: a
      primitive passes through as that word, a composite is the pointer
      expansion of that word. */
  ghost predicate TopLevelExtracted(mem: GuestMemory, dtb: U64, e: ExtractedParameterInformation,
                                    word: U64, s: ParameterInformation) {
    if IsComposite(s) then ExpandPointer(mem, dtb, word, s) == Ok(e)
    else e == ExtractedParameterInformation(s.name, Unsigned(word), [])
  }

  /** Extractor::getDeepExtractParameters: the shallow words paired with
      their schemas, each composite one expanded through guest memory; the
      first failed read fails the whole call. */
  function GetDeepExtractParameters(mem: GuestMemory, shallow: seq<U64>, schemas: seq<ParameterInformation>,
                                    dtb: U64): (r: Result<seq<ExtractedParameterInformation>>)
    requires |shallow| == |schemas|
    ensures r.Ok? <==> forall i :: 0 <= i < |schemas| && IsComposite(schemas[i]) ==> ExpandPointer(mem, dtb, shallow[i], schemas[i]).Ok?
    ensures r.Ok? ==> |r.value| == |schemas|
    ensures r.Ok? ==> forall i :: 0 <= i < |schemas| ==> TopLevelExtracted(mem, dtb, r.value[i], shallow[i], schemas[i])
    ensures r.Err? ==> exists i :: 0 <= i < |schemas| && IsComposite(schemas[i]) && ExpandPointer(mem, dtb, shallow[i], schemas[i]) == Err(r.error)
    decreases |schemas|
  {
    if schemas == [] then Ok([])
    else
      var s := schemas[0];
      var first :- if IsComposite(s) then ExpandPointer(mem, dtb, shallow[0], s)
                   else Ok(ExtractedParameterInformation(s.name, Unsigned(shallow[0]), []));
      var rest :- GetDeepExtractParameters(mem, shallow[1..], schemas[1..], dtb);
      Ok([first] + rest)
  }

  /** Extractor::extractParameters: shallow extraction from the hit's
      registers and stack, then deep extraction in the hit's address space. */
  function ExtractParameters(arch: Architecture, ev: InterruptEvent, mem: GuestMemory,
                             schemas: seq<ParameterInformation>): (r: Result<seq<ExtractedParameterInformation>>)
    ensures r.Ok? ==> |r.value| == |schemas|
    ensures r.Ok? ==> forall i :: 0 <= i < |schemas| ==> r.value[i].name == schemas[i].name
    ensures r.Ok? ==> forall i :: 0 <= i < |schemas| && IsComposite(schemas[i]) ==> Mirrors(r.value[i], schemas[i])
    ensures r.Ok? ==> forall i :: 0 <= i < |schemas| && !IsComposite(schemas[i]) ==>
      r.value[i].data.Unsigned? && FetchParameter(arch, ev, mem, i) == Ok(r.value[i].data.n) && r.value[i].backingParameters == []
    ensures r.Ok? <==>
      && GetShallowExtractedParams(arch, ev, mem, schemas).Ok?
      && forall i :: 0 <= i < |schemas| && IsComposite(schemas[i]) ==>
           FetchParameter(arch, ev, mem, i).Ok? &&
           ExpandPointer(mem, ev.cr3, FetchParameter(arch, ev, mem, i).value, schemas[i]).Ok?
    ensures r.Ok? ==> forall i :: 0 <= i < |schemas| && IsComposite(schemas[i]) ==>
      FetchParameter(arch, ev, mem, i).Ok? &&
      ExpandPointer(mem, ev.cr3, FetchParameter(arch, ev, mem, i).value, schemas[i]) == Ok(r.value[i])
  {
    var shallow :- GetShallowExtractedParams(arch, ev, mem, schemas);
    assert forall i :: 0 <= i < |schemas| ==> FetchParameter(arch, ev, mem, i) == Ok(shallow[i]);
    GetDeepExtractParameters(mem, shallow, schemas, ev.cr3)
  }
}
