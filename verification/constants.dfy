/** The calling-convention constants the Extractor uses. The header that
    defines them (ConstantDefinitions.h) is not part of this model; the
    values are those of the two conventions it implements. */
module ConstantDefinitions {
  /** Bits per byte. */
  const byteSize: nat := 8

  /** Pointer width of a 64-bit guest, in bits. */
  const x64AddressWidth: nat := 64

  /** Microsoft x64: the first four integer parameters travel in rcx, rdx, r8, r9. */
  const maxRegisterParameterCount: nat := 4

  /** Microsoft x64: the fifth parameter sits above the 8-byte return address
      and the 32-byte register home area, i.e. at rsp + 0x28 on entry. */
  const stackParameterOffsetX64: nat := 0x28

  /** 32-bit stack convention: parameter i sits at esp + (i + 1) * 4 on entry. */
  const stackParameterOffsetX86: nat := 4

  /** Size of one x64 stack slot in bytes. */
  const x64StackEntrySize: nat := x64AddressWidth / byteSize
}
