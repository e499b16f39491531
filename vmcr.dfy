/** The VM_CR model-specific register (MSR C001_0114h, AMD64 Architecture
    Programmer's Manual Volume 2, section 15.30.1) and an in-memory stand-in
    for the privileged read and write instructions. */
module VmCrMsr {

  /** A value of VM_CR. Only two fields matter to the routine: SVMDIS
      (`disabled`), which turns SVM off, and LOCK (`locked`), which makes
      SVMDIS read-only until the next reset. Every other bit is carried
      uninterpreted in `rest`. */
  datatype VmCr = VmCr(disabled: bool, locked: bool, rest: nat)

  /** The value with SVMDIS cleared and every other field kept: what
      `set_disabled(false)` does to the local copy of the register. */
  function ClearDisabled(v: VmCr): (w: VmCr)
    ensures !w.disabled
    ensures w.locked == v.locked && w.rest == v.rest
    ensures !v.disabled ==> w == v
  {
    v.(disabled := false)
  }

  /** The register as the routine sees it: its current value and how many
      times it has been read and written. The accessor performs no lock check
      of its own; keeping writes away from a locked register is the caller's
      duty. */
  class SimulatedVmCr {
    var value: VmCr
    var readCount: nat
    var writeCount: nat

    constructor (initial: VmCr)
      ensures value == initial && readCount == 0 && writeCount == 0
    {
      value := initial;
      readCount := 0;
      writeCount := 0;
    }

    /** The privileged read (RDMSR). */
    method Read() returns (v: VmCr)
      modifies this`readCount
      ensures v == value
      ensures readCount == old(readCount) + 1
    {
      v := value;
      readCount := readCount + 1;
    }

    /** The privileged write (WRMSR). */
    method Write(v: VmCr)
      modifies this`value, this`writeCount
      ensures value == v
      ensures writeCount == old(writeCount) + 1
    {
      value := v;
      writeCount := writeCount + 1;
    }
  }
}
