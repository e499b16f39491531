/** The UEFI entry point: probe CPUID, read VM_CR, decide, and write VM_CR
    back at most once. */
module EfiMain {
  import opened Cpuid
  import opened VmCrMsr
  import opened Enablement

  /** One invocation of the entry point against CPUID answers `cpuid` and the
      register `vmCrMsr`. It follows `efi_main` step by step: query leaf
      Fn8000_0001 (panic if absent), stop with UNSUPPORTED without SVM, read
      VM_CR, query leaf Fn8000_000A (panic if absent), and, if SVMDIS is set,
      either fail on an honoured lock or clear SVMDIS in the local copy and
      write it back. */
  method Run(cpuid: CpuidLeaves, vmCrMsr: SimulatedVmCr) returns (exit: Exit)
    modifies vmCrMsr
    ensures exit == Routine(cpuid, old(vmCrMsr.value)).exit
    ensures vmCrMsr.value == After(old(vmCrMsr.value), Routine(cpuid, old(vmCrMsr.value)))
    ensures vmCrMsr.readCount == old(vmCrMsr.readCount) + (if Routine(cpuid, old(vmCrMsr.value)).read then 1 else 0)
    ensures vmCrMsr.writeCount == old(vmCrMsr.writeCount) + (if Routine(cpuid, old(vmCrMsr.value)).written.Some? then 1 else 0)
    // The write is never performed when the lock is honoured and set.
    ensures HasSvmLock(cpuid) && old(vmCrMsr.value).locked ==> vmCrMsr.writeCount == old(vmCrMsr.writeCount)
  {
    if cpuid.extended.None? {
      return Panicked(ExtendedLeaf);
    }
    var hasSvm := cpuid.extended.value.svm;

    if hasSvm {
      var vmCr := vmCrMsr.Read();
      if cpuid.svmInfo.None? {
        return Panicked(SvmLeaf);
      }
      var svmFeatures := cpuid.svmInfo.value;

      if vmCr.disabled {
        var hasSvmLock := svmFeatures.svmLock;

        if hasSvmLock && vmCr.locked {
          return Returned(Unsupported);
        }

        vmCr := vmCr.(disabled := false);
        vmCrMsr.Write(vmCr);
      }

      exit := Returned(Success);
    } else {
      exit := Returned(Unsupported);
    }
  }

  /** Two invocations, one after the other, against one simulated register
      that starts out holding `initial`. The second run ends like the first,
      there is at most one write in all, and after a SUCCESS the register has
      SVMDIS clear. */
  method RunTwice(cpuid: CpuidLeaves, initial: VmCr) returns (first: Exit, second: Exit, writes: nat, final: VmCr)
    ensures second == first
    ensures writes <= 1
    ensures writes == 1 <==>
      HasSvm(cpuid) && cpuid.svmInfo.Some? && initial.disabled && !(cpuid.svmInfo.value.svmLock && initial.locked)
    ensures first == Returned(Success) ==> !final.disabled
    ensures writes == 0 ==> final == initial
  {
    var vmCrMsr := new SimulatedVmCr(initial);
    first := Run(cpuid, vmCrMsr);
    SecondRunIsQuiet(cpuid, initial);
    WritesExactlyWhen(cpuid, initial);
    second := Run(cpuid, vmCrMsr);
    writes := vmCrMsr.writeCount;
    final := vmCrMsr.value;
  }

  /** What `n` successive invocations against one register do. */
  datatype History = History(exits: seq<Exit>, final: VmCr, writes: nat)

  /** The history of `n` successive runs starting from a register holding `r`. */
  function Repeat(c: CpuidLeaves, r: VmCr, n: nat): (h: History)
    ensures |h.exits| == n
    decreases n
  {
    if n == 0 then History([], r, 0)
    else
      var e := Routine(c, r);
      var rest := Repeat(c, After(r, e), n - 1);
      History([e.exit] + rest.exits, rest.final, (if e.written.Some? then 1 else 0) + rest.writes)
  }

  /** From a register that a run leaves as it is, no number of further runs
      writes anything, and all of them end the same way. */
  lemma {:induction false} RepeatFromFixedPoint(c: CpuidLeaves, r: VmCr, n: nat)
    requires Routine(c, r).written.None?
    ensures Repeat(c, r, n).writes == 0
    ensures Repeat(c, r, n).final == r
    ensures forall i :: 0 <= i < n ==> Repeat(c, r, n).exits[i] == Routine(c, r).exit
    decreases n
  {
    if n > 0 {
      RepeatFromFixedPoint(c, r, n - 1);
    }
  }

  /** However many times the routine is invoked on one register, VM_CR is
      written at most once (on the first run), every run ends the same way,
      and if they succeed the register is left with SVMDIS clear. */
  lemma {:induction false} RepeatedRunsWriteAtMostOnce(c: CpuidLeaves, r: VmCr, n: nat)
    requires n > 0
    ensures Repeat(c, r, n).writes <= 1
    ensures Repeat(c, r, n).writes == 1 <==> Routine(c, r).written.Some?
    ensures forall i :: 0 <= i < n ==> Repeat(c, r, n).exits[i] == Routine(c, r).exit
    ensures Routine(c, r).exit == Returned(Success) ==> !Repeat(c, r, n).final.disabled
  {
    var e := Routine(c, r);
    SecondRunIsQuiet(c, r);
    RepeatFromFixedPoint(c, After(r, e), n - 1);
  }
}
