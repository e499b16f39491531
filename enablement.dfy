/** The enablement policy of the routine and its reference semantics: what one
    run does, as a value, given the CPUID answers and the VM_CR value found. */
module Enablement {
  import opened Cpuid
  import opened VmCrMsr

  /** The UEFI status codes the routine can return. */
  datatype Status = Success | Unsupported

  /** The four terminal states of the enablement decision. The two failures
      share one status code and are told apart only by the log line. */
  datatype Outcome = NoSvm | AlreadyEnabled | LockedDisabled | Enable

  /** Which CPUID leaf could not be read (the `.expect` calls that panic). */
  datatype Leaf = ExtendedLeaf | SvmLeaf

  /** How a run ends: it returns a status, or it panics on a missing leaf. */
  datatype Exit = Returned(status: Status) | Panicked(leaf: Leaf)

  /** What a run did: how it ended, whether it read VM_CR, and the value it
      wrote to VM_CR, if any (there is at most one write site). */
  datatype Effect = Effect(exit: Exit, read: bool, written: Option<VmCr>)

  /** The decision: SVM must be present; a register that is not disabled needs
      nothing; a disabled register is enabled unless the processor honours
      the lock and the lock bit is set. A set lock bit on a processor without
      lock support is ignored. `Routine` takes the no-SVM exit itself, before
      VM_CR is read, so it only asks `Decide` once SVM is known present. */
  function Decide(f: Features, r: VmCr): (o: Outcome)
    ensures o == NoSvm <==> !f.svm
    ensures o == Enable <==> f.svm && r.disabled && !(f.svmLock && r.locked)
    ensures o == LockedDisabled <==> f.svm && r.disabled && f.svmLock && r.locked
    ensures o == AlreadyEnabled <==> f.svm && !r.disabled
  {
    if !f.svm then NoSvm
    else if !r.disabled then AlreadyEnabled
    else if f.svmLock && r.locked then LockedDisabled
    else Enable
  }

  /** The mapping of outcomes to the status handed back to the firmware. */
  function StatusOf(o: Outcome): (s: Status)
    ensures s == Success <==> o == AlreadyEnabled || o == Enable
  {
    match o
    case NoSvm => Unsupported
    case AlreadyEnabled => Success
    case LockedDisabled => Unsupported
    case Enable => Success
  }

  /** The register value after a run with effect `e` on a register holding `r`. */
  function After(r: VmCr, e: Effect): (a: VmCr)
    ensures e.written.None? ==> a == r
  {
    if e.written.Some? then e.written.value else r
  }

  /** One run of the routine against CPUID answers `c` and a register holding
      `r`. The leaf Fn8000_0001 is queried first; VM_CR is read only when SVM
      is reported, and that read comes before the query of leaf Fn8000_000A. */
  function Routine(c: CpuidLeaves, r: VmCr): (e: Effect)
    // The only write follows a read and leads to SUCCESS.
    ensures e.written.Some? ==> e.read && e.exit == Returned(Success)
    // The write is never reached when the lock is honoured and set.
    ensures HasSvmLock(c) && r.locked ==> e.written.None?
    // What is written is what was read, with SVMDIS cleared.
    ensures e.written.Some? ==> e.written.value == ClearDisabled(r)
    // VM_CR is touched only when the processor reports SVM.
    ensures e.read ==> HasSvm(c)
    // SUCCESS is returned only with SVM left enabled in the register.
    ensures e.exit == Returned(Success) ==> !After(r, e).disabled
  {
    match c.extended
    case None => Effect(Panicked(ExtendedLeaf), false, None)
    case Some(ext) =>
      if !ext.svm then Effect(Returned(Unsupported), false, None)
      else match c.svmInfo
        case None => Effect(Panicked(SvmLeaf), true, None)
        case Some(_) =>
          var o := Decide(FeaturesOf(c), r);
          Effect(Returned(StatusOf(o)), true, if o == Enable then Some(ClearDisabled(r)) else None)
  }

  // ---------------------------------------------------------------------
  // The behaviours the routine promises, one lemma per case of the decision

  /** Without SVM the run fails with UNSUPPORTED and VM_CR is neither read
      nor written. */
  lemma NoSvmIsUnsupported(c: CpuidLeaves, r: VmCr)
    requires c.extended.Some? && !c.extended.value.svm
    ensures Routine(c, r) == Effect(Returned(Unsupported), false, None)
  {
  }

  /** With SVM reported and SVMDIS clear, the run succeeds without writing. */
  lemma AlreadyEnabledIsNoOp(c: CpuidLeaves, r: VmCr)
    requires HasSvm(c) && c.svmInfo.Some? && !r.disabled
    ensures Routine(c, r) == Effect(Returned(Success), true, None)
    ensures After(r, Routine(c, r)) == r
  {
  }

  /** A disabled register that is locked on a processor honouring the lock
      makes the run fail with UNSUPPORTED, and nothing is written. */
  lemma LockBlocksWrite(c: CpuidLeaves, r: VmCr)
    requires HasSvmLock(c) && r.disabled && r.locked
    ensures Routine(c, r) == Effect(Returned(Unsupported), true, None)
  {
  }

  /** A disabled register that is unlocked, or whose lock is not honoured, is
      written exactly once, with SVMDIS cleared, and the run succeeds. */
  lemma EnablePathWritesOnce(c: CpuidLeaves, r: VmCr)
    requires HasSvm(c) && c.svmInfo.Some? && r.disabled && !(c.svmInfo.value.svmLock && r.locked)
    ensures Routine(c, r) == Effect(Returned(Success), true, Some(ClearDisabled(r)))
    ensures !After(r, Routine(c, r)).disabled
  {
  }

  /** A stray LOCK bit on a processor without lock support does not stop the
      register from being enabled. */
  lemma StrayLockIgnored(c: CpuidLeaves, r: VmCr)
    requires HasSvm(c) && c.svmInfo.Some? && !c.svmInfo.value.svmLock
    requires r.disabled && r.locked
    ensures Routine(c, r).written == Some(VmCr(false, true, r.rest))
    ensures Routine(c, r).exit == Returned(Success)
  {
  }

  /** A missing SVM leaf panics after VM_CR was read, and before any write. */
  lemma MissingSvmLeafPanicsBeforeWrite(c: CpuidLeaves, r: VmCr)
    requires HasSvm(c) && c.svmInfo.None?
    ensures Routine(c, r) == Effect(Panicked(SvmLeaf), true, None)
  {
  }

  /** Exactly when a run writes VM_CR: SVM reported, both leaves readable,
      SVMDIS set, and not both lock support and LOCK. */
  lemma WritesExactlyWhen(c: CpuidLeaves, r: VmCr)
    ensures Routine(c, r).written.Some? <==>
      HasSvm(c) && c.svmInfo.Some? && r.disabled && !(c.svmInfo.value.svmLock && r.locked)
  {
  }

  /** Running the routine again on the register a first run left behind ends
      the same way and writes nothing: the register is then a fixed point. */
  lemma SecondRunIsQuiet(c: CpuidLeaves, r: VmCr)
    ensures Routine(c, After(r, Routine(c, r))).exit == Routine(c, r).exit
    ensures Routine(c, After(r, Routine(c, r))).written.None?
  {
  }
}
