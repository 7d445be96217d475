/** The parameter schema (ParameterInformation) and the extraction result
    tree (ExtractedParameterInformation) of the API tracer. */
module Parameters {
  import opened Words
  import opened Results

  /** The decoder a primitive field selects. The schema's type-name aliases
      collapse onto these: LPSTR_64 selects AsciiString, UNICODE_WSTR_64
      selects WideString, and int, unsigned long, __int64, unsigned __int64
      and __ptr64 select UnsignedInteger. */
  datatype LeafKind = UnsignedInteger | AsciiString | WideString

  /** One parameter of a traced function signature. A parameter with
      backing parameters is a pointer to a structure whose fields they
      describe, one pointer indirection per nesting level. */
  datatype ParameterInformation = ParameterInformation(
    basicType: Option<LeafKind>,
    name: string,
    parameterSize: nat,
    backingParameters: seq<ParameterInformation>)

  predicate IsComposite(p: ParameterInformation) {
    |p.backingParameters| > 0
  }

  /** The extracted datum of one parameter. `Empty` stands for the
      default-constructed datum a composite node keeps once its contents
      live in its children; which alternative of the C++ variant that is
      stays abstract. */
  datatype Value = Unsigned(n: U64) | Text(s: string) | Empty

  datatype ExtractedParameterInformation = ExtractedParameterInformation(
    name: string,
    data: Value,
    backingParameters: seq<ExtractedParameterInformation>)

  /** The decoder a nested primitive field uses: strings for the string
      kinds, a 64-bit word otherwise (also when no type is declared). */
  predicate DecodedAs(kind: Option<LeafKind>, v: Value) {
    match kind
    case Some(AsciiString) => v.Text?
    case Some(WideString) => v.Text?
    case _ => v.Unsigned?
  }

  /** `e` is a fully extracted nested node for schema `s`: same name, one
      child per backing parameter in order, an empty datum on composite
      nodes and a datum of the declared kind on leaves. */
  ghost predicate Mirrors(e: ExtractedParameterInformation, s: ParameterInformation)
    decreases s
  {
    && e.name == s.name
    && |e.backingParameters| == |s.backingParameters|
    && (IsComposite(s) ==> e.data == Empty)
    && (!IsComposite(s) ==> DecodedAs(s.basicType, e.data))
    && forall i :: 0 <= i < |s.backingParameters| ==> Mirrors(e.backingParameters[i], s.backingParameters[i])
  }
}
