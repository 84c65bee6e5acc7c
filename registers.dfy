/**
 * The arithmetic the modbus object does itself: the register window of an
 * instance, the clamp-and-repeat fill of the register buffer from a list,
 * and the decoding of the firmware version from two registers.
 */
module Registers {

  /** A 16-bit register number or register value (uint16_t). */
  type Word = x: int | 0 <= x < 0x1_0000

  /** A slave address (uint8_t). */
  type Byte = x: int | 0 <= x < 0x100

  /** Number of registers in the firmware-version window (MB_VERSION_REGS). */
  const VersionRegs: nat := 2

  /**
   * Storing a 16-bit value into the uint8_t address field keeps it modulo 256:
   * the result is the one byte congruent to the value.
   */
  function ToByte(w: Word): (b: Byte)
    ensures (w - b) % 0x100 == 0
    ensures w < 0x100 ==> b == w
  {
    w % 0x100
  }

  /**
   * The number of registers an instance addresses. A last register of 0 is
   * the sentinel for single-register mode. Otherwise the count is computed
   * in signed int arithmetic, not modulo 2^16, so it is below 1 when the
   * last register precedes the first.
   */
  function NumRegs(first: Word, last: Word): (n: int)
    ensures last == 0 ==> n == 1
    ensures n >= 1 <==> last == 0 || first <= last
    ensures last != 0 ==> first + n - 1 == last
    ensures -0xFFFF < n <= 0x1_0000
  {
    if last != 0 then last - first + 1 else 1
  }

  /**
   * Which input atom the fill loop reads for buffer slot i, given ac atoms:
   * the cursor advances with i until it reaches the last atom, then stays.
   */
  function Cursor(i: nat, ac: nat): (k: nat)
    requires ac >= 1
    ensures k < ac
    ensures k == i <==> i < ac
    ensures i >= ac ==> k == ac - 1
  {
    if i < ac then i else ac - 1
  }

  /** The register buffer that a list of atoms fills: slot i holds atom Cursor(i, |atoms|). */
  function Filled(atoms: seq<Word>, n: nat): (r: seq<Word>)
    requires n > 0 ==> |atoms| >= 1
    ensures |r| == n
  {
    seq(n, i requires 0 <= i < n => atoms[Cursor(i, |atoms|)])
  }

  /**
   * The fill loop: one buffer slot per register, reading the atom under the
   * cursor and advancing the cursor only while more than one atom is left.
   */
  method FillRegisters(atoms: seq<Word>, numRegs: nat) returns (regData: seq<Word>)
    requires numRegs > 0 ==> |atoms| >= 1
    ensures regData == Filled(atoms, numRegs)
  {
    regData := [];
    var ac, av := |atoms|, 0;
    var i := 0;
    while i < numRegs
      invariant 0 <= i <= numRegs
      invariant regData == Filled(atoms, numRegs)[..i]
      invariant numRegs > 0 ==> ac >= 1 && av + ac == |atoms| && av == Cursor(i, |atoms|)
    {
      regData := regData + [atoms[av]];
      if ac > 1 {
        ac := ac - 1;
        av := av + 1;
      }
      i := i + 1;
    }
  }

  /** The input atoms are copied to the buffer in order, as far as both reach. */
  lemma FilledCopiesPrefix(atoms: seq<Word>, n: nat)
    requires n > 0 ==> |atoms| >= 1
    ensures var m := if n < |atoms| then n else |atoms|;
      Filled(atoms, n)[..m] == atoms[..m]
  {
  }

  /** Every slot beyond the input atoms repeats the last atom. */
  lemma FilledRepeatsLast(atoms: seq<Word>, n: nat, i: nat)
    requires |atoms| >= 1
    requires |atoms| <= i < n
    ensures Filled(atoms, n)[i] == atoms[|atoms| - 1]
  {
  }

  /** With at least as many atoms as registers, the extra atoms are ignored. */
  lemma FilledIgnoresExtra(atoms: seq<Word>, n: nat)
    requires n <= |atoms|
    requires n > 0 ==> |atoms| >= 1
    ensures Filled(atoms, n) == atoms[..n]
  {
  }

  /** With fewer atoms than registers, the buffer is the atoms followed by copies of the last one. */
  lemma FilledPadsWithLast(atoms: seq<Word>, n: nat)
    requires 1 <= |atoms| <= n
    ensures Filled(atoms, n) == atoms + seq(n - |atoms|, _ => atoms[|atoms| - 1])
  {
  }

  /** Writing the list [7] to registers 10 to 12 writes [7, 7, 7]. */
  lemma FilledSingleAtom()
    ensures NumRegs(10, 12) == 3
    ensures Filled([7], NumRegs(10, 12)) == [7, 7, 7]
  {
  }

  /**
   * The firmware version: the first version register is the high half, the
   * second the low half of a 32-bit number.
   */
  function FirmwareVersion(hi: Word, lo: Word): (v: nat)
    ensures v < 0x1_0000_0000
    ensures v / 0x1_0000 == hi && v % 0x1_0000 == lo
  {
    hi * 0x1_0000 + lo
  }

  /** Two versions decode equal only when both registers are equal. */
  lemma FirmwareVersionInjective(hi: Word, lo: Word, hi': Word, lo': Word)
    requires FirmwareVersion(hi, lo) == FirmwareVersion(hi', lo')
    ensures hi == hi' && lo == lo'
  {
  }

  /** Registers [0x0001, 0x0002] decode to version 0x00010002. */
  lemma FirmwareVersionExample()
    ensures FirmwareVersion(0x0001, 0x0002) == 0x0001_0002
  {
  }
}
