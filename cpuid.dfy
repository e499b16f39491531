/** The processor identification data the routine consults (the AMD64 CPUID
    instruction), as an explicit input instead of a hardware query.

    Two leaves matter:
    - Fn8000_0001 (extended processor and feature identifiers): ECX carries the
      SVM capability bit;
    - Fn8000_000A (SVM revision and feature identification): EDX carries the
      SVM-lock, NRIP-save and nested-paging bits.
    A leaf the processor cannot report is `None`; the routine then panics. */
module Cpuid {

  datatype Option<+T> = None | Some(value: T)

  /** The part of leaf Fn8000_0001 the routine looks at. */
  datatype ExtendedFeatures = ExtendedFeatures(svm: bool)

  /** The part of leaf Fn8000_000A the routine looks at. */
  datatype SvmFeatures = SvmFeatures(svmLock: bool, nrip: bool, nestedPaging: bool)

  /** What a CPUID query would answer for the two leaves. */
  datatype CpuidLeaves = CpuidLeaves(extended: Option<ExtendedFeatures>, svmInfo: Option<SvmFeatures>)

  /** The feature set the enablement decision is taken on. When `svm` is false
      the other flags carry no meaning and are never consulted. */
  datatype Features = Features(svm: bool, svmLock: bool, nrip: bool, nestedPaging: bool)

  /** Leaf Fn8000_0001 is readable and reports SVM; leaf Fn8000_000A may
      still be missing. */
  predicate HasSvm(c: CpuidLeaves)
  {
    c.extended.Some? && c.extended.value.svm
  }

  /** The processor reports SVM and reports that VM_CR.LOCK is honoured. */
  predicate HasSvmLock(c: CpuidLeaves)
  {
    HasSvm(c) && c.svmInfo.Some? && c.svmInfo.value.svmLock
  }

  /** The feature set the decision is taken on, once leaf Fn8000_000A has been
      read: SVM as leaf Fn8000_0001 reports it, and the sub-feature flags of
      leaf Fn8000_000A. The lock flag it carries is the one the leaf-level
      guard `HasSvmLock` speaks of. */
  function FeaturesOf(c: CpuidLeaves): (f: Features)
    requires c.svmInfo.Some?
    ensures f.svm == HasSvm(c)
    ensures f.svm && f.svmLock <==> HasSvmLock(c)
  {
    Features(HasSvm(c), c.svmInfo.value.svmLock, c.svmInfo.value.nrip, c.svmInfo.value.nestedPaging)
  }
}
