# AMD-V enablement at boot, in Dafny

This project models the UEFI application `efi_main` of XNUAMDSupportPkg. The
application runs once before the OS loader. It asks CPUID whether the
processor implements AMD's Secure Virtual Machine extension (SVM, "AMD-V").
If it does, it reads the VM_CR model-specific register (MSR C001_0114h). When
VM_CR.SVMDIS is set, it clears that bit and writes the register back, unless
the processor honours VM_CR.LOCK and LOCK is set. It returns `SUCCESS` or
`UNSUPPORTED` to the firmware.

The register layout follows the AMD64 Architecture Programmer's Manual,
Volume 2: section 15.4 (Enabling SVM) and section 15.30.1 (the VM_CR MSR). The
CPUID leaves are Fn8000_0001 (ECX holds the SVM bit) and Fn8000_000A (EDX
holds the SVM-lock, NRIP-save and nested-paging bits).

Files:
- `cpuid.dfy` (module `Cpuid`): the two CPUID leaves, passed in as values.
  A leaf the processor cannot report is `None`.
- `vmcr.dfy` (module `VmCrMsr`): the VM_CR value (`disabled`, `locked` and the
  other bits kept opaque in `rest`). Also `SimulatedVmCr`, an in-memory
  register that counts its reads and writes.
- `enablement.dfy` (module `Enablement`): the pure decision `Decide` over the
  four outcomes (`NoSvm`, `AlreadyEnabled`, `LockedDisabled`, `Enable`), the
  status mapping, and `Routine`. `Routine` is the reference semantics of one
  run as a value: how it ends, whether it read VM_CR, and what it wrote.
  The lemmas beside it state the behaviour of each branch.
- `efi_main.dfy` (module `EfiMain`): `Run`, an imperative copy of `efi_main`
  that acts on a `SimulatedVmCr` and is proved equal to `Routine`. Also
  repeated invocations: two runs (`RunTwice`) and any number of runs
  (`Repeat` with its lemmas).

A missing Fn8000_000A leaf panics only after VM_CR has been read
(src/main.rs:38-39): one read, no write. `Routine`, `Run` and
`MissingSvmLeafPanicsBeforeWrite` model that order.

## Model

| member | source | states |
|---|---|---|
| `Cpuid.FeaturesOf` | src/main.rs:32-44 | once leaf Fn8000_000A is read, the feature set's SVM flag is what leaf Fn8000_0001 reports, and its lock flag (under SVM) holds exactly when the processor reports SVM and honours VM_CR.LOCK, the leaf-level guard the safety clauses of `Routine` and `Run` use |
| `VmCrMsr.ClearDisabled` | src/main.rs:50 | `set_disabled(false)` leaves SVMDIS clear, keeps LOCK and every other bit, and is the identity on an enabled value |
| `VmCrMsr.SimulatedVmCr.Read` | src/main.rs:38 | the read returns the register's current value, counts one read and changes nothing else |
| `VmCrMsr.SimulatedVmCr.Write` | src/main.rs:51-53 | the write stores the given value and counts one write, with no lock check of its own |
| `Enablement.Decide` | src/main.rs:37-47 | the four outcomes and their guards: no SVM; SVM with SVMDIS clear; SVMDIS set with lock supported and LOCK set; SVMDIS set otherwise. The four are exclusive and cover every input, and the lock bit counts only when lock support is reported |
| `Enablement.StatusOf` | src/main.rs:46-66 | SUCCESS exactly for the already-enabled and enable outcomes; both failures map to UNSUPPORTED |
| `Enablement.Routine` | src/main.rs:31-67 | a run writes only after reading VM_CR and only on the way to SUCCESS. It never writes when the lock is supported and set. It writes the value read with only SVMDIS cleared. It touches VM_CR only when SVM is reported. It returns SUCCESS only if the register ends with SVMDIS clear |
| `Enablement.NoSvmIsUnsupported` | src/main.rs:64-67 | without SVM the result is UNSUPPORTED and VM_CR is neither read nor written |
| `Enablement.AlreadyEnabledIsNoOp` | src/main.rs:41-63 | with SVM and SVMDIS clear the result is SUCCESS, with no write, and the register is unchanged |
| `Enablement.LockBlocksWrite` | src/main.rs:44-47 | with SVM, SVMDIS set, lock supported and LOCK set the result is UNSUPPORTED with no write |
| `Enablement.EnablePathWritesOnce` | src/main.rs:41-55 | with SVM, SVMDIS set and no honoured lock, exactly one write of the value read with SVMDIS cleared, the result is SUCCESS, and the register ends enabled |
| `Enablement.StrayLockIgnored` | src/main.rs:42-53 | without lock support, a disabled and locked register is still written with SVMDIS clear and LOCK kept, and the result is SUCCESS |
| `Enablement.MissingSvmLeafPanicsBeforeWrite` | src/main.rs:38-39 | when leaf Fn8000_000A is unavailable the run panics after reading VM_CR and without writing it |
| `Enablement.WritesExactlyWhen` | src/main.rs:41-53 | a run writes VM_CR if and only if SVM is reported, both leaves are readable, SVMDIS is set and the lock is not both supported and set |
| `Enablement.SecondRunIsQuiet` | src/main.rs:41-63 | a run on the register left by a previous run ends the same way and writes nothing |
| `EfiMain.Run` | src/main.rs:27-68 | the imperative entry point ends as `Routine` says. It reads and writes the register exactly as often as `Routine` says and leaves the value `Routine` gives. It performs no write when the lock is supported and set |
| `EfiMain.RunTwice` | src/main.rs:41-63 | two runs on one register end alike, write at most once in all (once exactly when the first run enables), leave SVMDIS clear after SUCCESS, and leave the register as it was when nothing is written |
| `EfiMain.Repeat` | src/main.rs:27-68 | the history of n successive runs on one register records exactly n exits |
| `EfiMain.RepeatFromFixedPoint` | src/main.rs:41-63 | from a register that a run does not write, any number of runs write nothing, leave it unchanged and all end the same way |
| `EfiMain.RepeatedRunsWriteAtMostOnce` | src/main.rs:41-63 | any positive number of runs on one register write it at most once (exactly once when the first run enables). Every run ends like the first. After SUCCESS the register has SVMDIS clear |

## Left out

- `uefi_services::init` and its `expect_success` (src/main.rs:29), and the image and system-table handles: these are firmware services from other crates.
- The log lines (`info!`/`error!`, src/main.rs:45, 49, 54, 57-61, 65). They name the UNSUPPORTED cause (no SVM, or disabled and locked), announce the enabling write before and after it, report "AMD-V is enabled" on both SUCCESS paths, and print the NRIP-save and nested-paging flags there. `Decide` still distinguishes the outcomes; `FeaturesOf` carries the two flags but nothing prints them.
- The CPUID and RDMSR/WRMSR instructions (src/main.rs:31-39, 51-53): CPUID is an input value (`CpuidLeaves`) and the MSR is the in-memory `SimulatedVmCr`.
- The bit layout that the `amd64` crate's `VmCr` accessors use is not part of this model. Only SVMDIS and LOCK are fields; all other bits are the opaque `rest`.
- What real hardware does on a write to a locked VM_CR (ignoring writes to SVMDIS and LOCK). `SimulatedVmCr.Write` simply stores the value; the model proves instead that no such write is issued.
- Other processors: the routine acts on the VM_CR of the processor it runs on, and so does the model.
- There is no read-back after the write, in the source or in the model. A SUCCESS after a write means "SVMDIS cleared in the value written".
