/** The Extractor unit test's fixtures and expectations, stated as lemmas
    about the model: one hit in address space 0x1337 with rsp = 0x420 and
    the four register parameters preset. */
module ExtractorUnittest {
  import opened Words
  import opened Results
  import opened Parameters
  import opened Introspection
  import opened Extractor
  import opened ExtractorProperties

  const testDtb: U64 := 0x1337
  const testRsp: U64 := 0x420

  const param1Value: U64 := 0xCAFEBABE
  const param2Value: U64 := 0xDEADBEEF
  const param3Value: U64 := 0xBBBB
  const param4Value: U64 := 0xAA
  const param5Value: U64 := 0xFEEBDAED
  const param6Value: U64 := 0x0123456789101112

  const testEvent: InterruptEvent :=
    InterruptEvent(testDtb, 0, param1Value, param2Value, param3Value, param4Value, testRsp)

  function Primitive(kind: Option<LeafKind>, name: string, size: nat): ParameterInformation {
    ParameterInformation(kind, name, size, [])
  }

  const testParams64: seq<ParameterInformation> := [
    Primitive(Some(AsciiString), "param1", 8),
    Primitive(Some(UnsignedInteger), "param2", 4),
    Primitive(Some(UnsignedInteger), "param3", 4),
    Primitive(Some(UnsignedInteger), "param4", 8),
    Primitive(Some(UnsignedInteger), "param5", 8),
    Primitive(Some(WideString), "param6", 8)]

  const testParams32: seq<ParameterInformation> := [
    Primitive(None, "param1", 4),
    Primitive(None, "param2", 4),
    Primitive(None, "param3", 2),
    Primitive(None, "param4", 1),
    Primitive(None, "param5", 4)]

  /** The two x64 stack slots above the home area hold parameters 5 and 6. */
  const x64Stack: GuestMemory := GuestMemory(
    map[(testRsp + 0x28, testDtb) := param5Value, (testRsp + 0x30, testDtb) := param6Value], map[], map[])

  /** Five consecutive 4-byte x86 slots above the return address. */
  const x86Stack: GuestMemory := GuestMemory(
    map[(testRsp + 4, testDtb) := param1Value, (testRsp + 8, testDtb) := param2Value,
        (testRsp + 12, testDtb) := param3Value, (testRsp + 16, testDtb) := param4Value,
        (testRsp + 20, testDtb) := param5Value], map[], map[])

  lemma ZeroParametersBothWidths(mem: GuestMemory)
    ensures GetShallowExtractedParams(X64, testEvent, mem, []) == Ok([])
    ensures GetShallowExtractedParams(X86, testEvent, mem, []) == Ok([])
  {
    EmptySchemaListYieldsNothing(X64, testEvent, mem);
    EmptySchemaListYieldsNothing(X86, testEvent, mem);
  }

  lemma SixParameters64Bit()
    ensures GetShallowExtractedParams(X64, testEvent, x64Stack, testParams64)
         == Ok([param1Value, param2Value, param3Value, param4Value, param5Value, param6Value])
  {
    var expected := [param1Value, param2Value, param3Value, param4Value, param5Value, param6Value];
    assert forall k :: 0 <= k < 6 ==> FetchParameter(X64, testEvent, x64Stack, k) == Ok(expected[k]);
    var r := GetShallowExtractedParams(X64, testEvent, x64Stack, testParams64);
    assert r.Ok? && |r.value| == 6;
    forall k | 0 <= k < 6
      ensures r.value[k] == expected[k]
    {
      assert FetchParameter(X64, testEvent, x64Stack, k) == Ok(r.value[k]);
    }
    assert r.value == expected;
  }

  lemma FiveParameters32Bit()
    ensures GetShallowExtractedParams(X86, testEvent, x86Stack, testParams32)
         == Ok([param1Value, param2Value, param3Value, param4Value, param5Value])
  {
    var expected := [param1Value, param2Value, param3Value, param4Value, param5Value];
    assert forall k :: 0 <= k < 5 ==> FetchParameter(X86, testEvent, x86Stack, k) == Ok(expected[k]);
    var r := GetShallowExtractedParams(X86, testEvent, x86Stack, testParams32);
    assert r.Ok? && |r.value| == 5;
    forall k | 0 <= k < 5
      ensures r.value[k] == expected[k]
    {
      assert FetchParameter(X86, testEvent, x86Stack, k) == Ok(r.value[k]);
    }
    assert r.value == expected;
  }

  /** FileHandle followed by a two-level pointer chain to a narrow string. */
  const testNestedStruct: seq<ParameterInformation> := [
    Primitive(Some(UnsignedInteger), "FileHandle", 8),
    ParameterInformation(None, "ObjectAttributesOne", 8, [
      ParameterInformation(None, "ObjectAttributesTwo", 8, [
        Primitive(Some(AsciiString), "ObjectAttributesTwoContent", 8)])])]

  const nestedStructMemory: GuestMemory := GuestMemory(
    map[(0xDEADBEEF, testDtb) := 0xFFFFFFF1, (0xFFFFFFF1, testDtb) := 0xFFFFFFF2],
    map[(0xFFFFFFF2, testDtb) := "extract me"],
    map[])

  const expectedNestedParameters: seq<ExtractedParameterInformation> := [
    ExtractedParameterInformation("FileHandle", Unsigned(param1Value), []),
    ExtractedParameterInformation("ObjectAttributesOne", Empty, [
      ExtractedParameterInformation("ObjectAttributesTwo", Empty, [
        ExtractedParameterInformation("ObjectAttributesTwoContent", Text("extract me"), [])])])]

  lemma NestedStructDeepExtraction()
    ensures GetShallowExtractedParams(X64, testEvent, nestedStructMemory, testNestedStruct).Ok?
    ensures var shallow := GetShallowExtractedParams(X64, testEvent, nestedStructMemory, testNestedStruct).value;
      GetDeepExtractParameters(nestedStructMemory, shallow, testNestedStruct, testDtb) == Ok(expectedNestedParameters)
  {
    X64RegisterOnlySignature(testEvent, nestedStructMemory, testNestedStruct);
    var shallow := [param1Value, param2Value];
    var names := ["ObjectAttributesOne", "ObjectAttributesTwo"];
    var leaf := Primitive(Some(AsciiString), "ObjectAttributesTwoContent", 8);
    assert ChainSchema(names, leaf) == testNestedStruct[1];
    assert FollowPointers(nestedStructMemory, testDtb, param2Value, 2) == Ok(0xFFFFFFF2);
    PointerChainExtraction(nestedStructMemory, testDtb, param2Value, names, leaf, 0xFFFFFFF2);
    assert ChainTree(names, ExtractedParameterInformation("ObjectAttributesTwoContent", Text("extract me"), []))
        == expectedNestedParameters[1];
    var r := GetDeepExtractParameters(nestedStructMemory, shallow, testNestedStruct, testDtb);
    assert r.Ok?;
    assert r.value[0] == expectedNestedParameters[0];
    assert r.value[1] == expectedNestedParameters[1];
    assert r.value == expectedNestedParameters;
  }
}
