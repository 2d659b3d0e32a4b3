/** The seccomp filter: a classic BPF program over the description of one system call, run
    by a small interpreter, and the table it is meant to compute. */
module SyscallFilter {
  import opened Wrappers

  const AUDIT_ARCH_X86_64: bv32 := 0xC000003E
  const X32_SYSCALL_BIT: bv32 := 0x40000000
  const NR_CLONE: bv32 := 56
  const CLONE_THREAD: bv32 := 0x00010000
  const CLONE_THREAD_FLAG: bv64 := 0x00010000
  const LOW_WORD: bv64 := 0xFFFFFFFF
  const EPERM: nat := 1
  const ENOSYS: nat := 38

  // What the kernel hands to a filter. Only the first argument is looked at.
  datatype SeccompData = SeccompData(nr: bv32, arch: bv32, arg0: bv64)

  datatype Verdict = KillProcess | Errno(code: nat) | Allow

  datatype Field = ArchField | NrField | Arg0Low

  datatype Instruction =
    | Load(field: Field)
    | JumpEqual(k: bv32, whenTrue: nat, whenFalse: nat)
    | JumpAtLeast(k: bv32, whenTrue: nat, whenFalse: nat)
    | JumpBitSet(k: bv32, whenTrue: nat, whenFalse: nat)
    | Return(verdict: Verdict)

  // Word loads: the filter sees the low half of a 64-bit argument.
  function Fetch(d: SeccompData, f: Field): bv32 {
    match f
    case ArchField => d.arch
    case NrField => d.nr
    case Arg0Low => (d.arg0 & LOW_WORD) as bv32
  }

  function Offset(i: Instruction, acc: bv32): nat
    requires !i.Return?
  {
    match i
    case Load(_) => 0
    case JumpEqual(k, t, f) => if acc == k then t else f
    case JumpAtLeast(k, t, f) => if acc >= k then t else f
    case JumpBitSet(k, t, f) => if acc & k != 0 then t else f
  }

  /** Runs the program from `pc`; `None` means that it ran past the end. */
  function Run(program: seq<Instruction>, d: SeccompData, pc: nat, acc: bv32): Option<Verdict>
    decreases |program| - pc
  {
    if pc >= |program| then None
    else if program[pc].Return? then Some(program[pc].verdict)
    else
      var acc' := if program[pc].Load? then Fetch(d, program[pc].field) else acc;
      Run(program, d, pc + 1 + Offset(program[pc], acc), acc')
  }

  // One line of the deny list: the system call and the error it gives.
  datatype Deny = Deny(nr: bv32, error: nat)

  const PREFIX: seq<Instruction> := [
    Load(ArchField),
    JumpEqual(AUDIT_ARCH_X86_64, 1, 0),
    Return(KillProcess),
    Load(NrField),
    JumpAtLeast(X32_SYSCALL_BIT, 0, 1),
    Return(Errno(EPERM)),
    JumpEqual(NR_CLONE, 0, 4),
    Load(Arg0Low),
    JumpBitSet(CLONE_THREAD, 0, 1),
    Return(Allow),
    Return(Errno(EPERM))]

  function DenyNr(x: Deny): seq<Instruction> {
    [JumpEqual(x.nr, 0, 1), Return(Errno(x.error))]
  }

  function DenyAll(list: seq<Deny>): seq<Instruction> {
    if list == [] then [] else DenyNr(list[0]) + DenyAll(list[1..])
  }

  function Program(list: seq<Deny>): seq<Instruction> {
    PREFIX + DenyAll(list) + [Return(Allow)]
  }

  // The list in force, in its order: the first line differs in its error.
  const DENY_LIST: seq<Deny> := [
    Deny(435, ENOSYS),
    Deny(57, EPERM), Deny(58, EPERM), Deny(59, EPERM), Deny(322, EPERM),
    Deny(41, EPERM), Deny(53, EPERM), Deny(42, EPERM), Deny(49, EPERM),
    Deny(50, EPERM), Deny(43, EPERM), Deny(288, EPERM), Deny(44, EPERM),
    Deny(46, EPERM), Deny(47, EPERM), Deny(425, EPERM), Deny(426, EPERM),
    Deny(427, EPERM), Deny(101, EPERM), Deny(310, EPERM), Deny(311, EPERM),
    Deny(304, EPERM), Deny(438, EPERM), Deny(165, EPERM), Deny(166, EPERM),
    Deny(321, EPERM), Deny(298, EPERM), Deny(323, EPERM)]

  /** The table: no program, no jumps. */
  function Table(list: seq<Deny>, d: SeccompData): Verdict {
    if d.arch != AUDIT_ARCH_X86_64 then KillProcess
    else if d.nr >= X32_SYSCALL_BIT then Errno(EPERM)
    else if d.nr == NR_CLONE then (if d.arg0 & CLONE_THREAD_FLAG != 0 then Allow else Errno(EPERM))
    else FirstMatch(list, d.nr)
  }

  function FirstMatch(list: seq<Deny>, nr: bv32): Verdict {
    if list == [] then Allow
    else if list[0].nr == nr then Errno(list[0].error)
    else FirstMatch(list[1..], nr)
  }

  /** The flag lies in the low half of the 64-bit flags. */
  lemma LowWordKeepsFlag(x: bv64)
    ensures ((x & LOW_WORD) as bv32) & CLONE_THREAD != 0 <==> x & CLONE_THREAD_FLAG != 0
  {
  }

  /** The deny list runs as a first-match search, wherever it stands. */
  lemma {:induction false} DenyListRuns(program: seq<Instruction>, list: seq<Deny>, d: SeccompData, pc: nat)
    requires pc <= |program| && program[pc..] == DenyAll(list) + [Return(Allow)]
    ensures Run(program, d, pc, d.nr) == Some(FirstMatch(list, d.nr))
  {
    if list == [] {
      assert program[pc] == program[pc..][0] == Return(Allow);
    } else {
      var rest := program[pc..];
      assert program[pc] == rest[0] == JumpEqual(list[0].nr, 0, 1);
      assert program[pc + 1] == rest[1] == Return(Errno(list[0].error));
      assert program[pc + 2..] == rest[2..] == DenyAll(list[1..]) + [Return(Allow)];
      DenyListRuns(program, list[1..], d, pc + 2);
    }
  }

  /** For every architecture, system call, argument and deny list, the program ends at a
      return inside the array, with what the table says. */
  lemma ProgramComputesTable(list: seq<Deny>, d: SeccompData)
    ensures Run(Program(list), d, 0, 0) == Some(Table(list, d))
  {
    var p := Program(list);
    assert p[..11] == PREFIX;
    LowWordKeepsFlag(d.arg0);
    assert p[11..] == DenyAll(list) + [Return(Allow)];
    DenyListRuns(p, list, d, 11);
    PrefixRuns(p, d);
    if d.nr == NR_CLONE {
      CloneRuns(p, d);
    }
  }

  lemma CloneRuns(p: seq<Instruction>, d: SeccompData)
    requires |p| > 11 && p[..11] == PREFIX && d.nr == NR_CLONE
    ensures Run(p, d, 6, d.nr) ==
            Some(if Fetch(d, Arg0Low) & CLONE_THREAD != 0 then Allow else Errno(EPERM))
  {
    hide Fetch;
    var low := Fetch(d, Arg0Low);
    assert forall i :: 0 <= i < 11 ==> p[i] == p[..11][i];
    assert Run(p, d, 6, d.nr) == Run(p, d, 7, d.nr) == Run(p, d, 8, low);
    if low & CLONE_THREAD != 0 {
      assert Run(p, d, 8, low) == Run(p, d, 9, low);
    } else {
      assert Run(p, d, 8, low) == Run(p, d, 10, low);
    }
  }

  lemma PrefixRuns(p: seq<Instruction>, d: SeccompData)
    requires |p| > 11 && p[..11] == PREFIX
    ensures d.arch != AUDIT_ARCH_X86_64 ==> Run(p, d, 0, 0) == Some(KillProcess)
    ensures d.arch == AUDIT_ARCH_X86_64 && d.nr >= X32_SYSCALL_BIT ==> Run(p, d, 0, 0) == Some(Errno(EPERM))
    ensures d.arch == AUDIT_ARCH_X86_64 && d.nr < X32_SYSCALL_BIT ==> Run(p, d, 0, 0) == Run(p, d, 6, d.nr)
    ensures d.nr != NR_CLONE ==> Run(p, d, 6, d.nr) == Run(p, d, 11, d.nr)
  {
    assert forall i :: 0 <= i < 11 ==> p[i] == p[..11][i];
    if d.arch == AUDIT_ARCH_X86_64 {
      assert Run(p, d, 0, 0) == Run(p, d, 1, d.arch) == Run(p, d, 3, d.arch) == Run(p, d, 4, d.nr);
      if d.nr < X32_SYSCALL_BIT {
        assert Run(p, d, 4, d.nr) == Run(p, d, 6, d.nr);
      } else {
        assert Run(p, d, 4, d.nr) == Run(p, d, 5, d.nr);
      }
    } else {
      assert Run(p, d, 0, 0) == Run(p, d, 1, d.arch) == Run(p, d, 2, d.arch);
    }
  }

  /** What first match means: an unlisted call is allowed, a listed one gets the error of
      its earliest line. */
  lemma {:induction false} FirstMatchFinds(list: seq<Deny>, nr: bv32, i: nat)
    requires i <= |list| && forall j :: 0 <= j < i ==> list[j].nr != nr
    ensures i == |list| ==> FirstMatch(list, nr) == Allow
    ensures i < |list| && list[i].nr == nr ==> FirstMatch(list, nr) == Errno(list[i].error)
  {
    if i > 0 {
      FirstMatchFinds(list[1..], nr, i - 1);
    }
  }

  lemma {:induction false} ProgramLength(list: seq<Deny>)
    ensures |Program(list)| == 12 + 2 * |list|
  {
    if list != [] {
      ProgramLength(list[1..]);
    }
  }

  // fork, vfork, execve, execveat; the socket calls; io_uring; ptrace and its like; mounts;
  // bpf, perf_event_open and userfaultfd.
  const BLOCKED: seq<bv32> := [
    57, 58, 59, 322, 41, 53, 42, 49, 50, 43, 288, 44, 46, 47, 425, 426, 427, 101, 310, 311, 304, 438,
    165, 166, 321, 298, 323]

  lemma {:induction false} AllRefused(list: seq<Deny>, numbers: seq<bv32>, nr: bv32)
    requires |list| == |numbers| && forall i :: 0 <= i < |list| ==> list[i] == Deny(numbers[i], EPERM)
    ensures FirstMatch(list, nr) == if nr in numbers then Errno(EPERM) else Allow
  {
    if list != [] {
      AllRefused(list[1..], numbers[1..], nr);
      assert numbers == [numbers[0]] + numbers[1..];
    }
  }

  predicate Refuses(i: int) {
    0 <= i < 27 && DENY_LIST[i + 1] == Deny(BLOCKED[i], EPERM)
  }

  lemma FirstNine()
    ensures forall i :: 0 <= i < 9 ==> Refuses(i)
  {
  }

  lemma NextNine()
    ensures forall i :: 9 <= i < 18 ==> Refuses(i)
  {
  }

  lemma LastNine()
    ensures forall i :: 18 <= i < 27 ==> Refuses(i)
  {
  }

  lemma Lengths()
    ensures |DENY_LIST| == 28 && |BLOCKED| == 27 && DENY_LIST[0] == Deny(435, ENOSYS)
  {
  }

  lemma ListedIsBlocked(nr: bv32)
    ensures FirstMatch(DENY_LIST, nr) ==
            if nr == 435 then Errno(38) else if nr in BLOCKED then Errno(1) else Allow
  {
    hide DENY_LIST, BLOCKED;
    Lengths();
    FirstNine();
    NextNine();
    LastNine();
    forall i | 0 <= i < 27 ensures DENY_LIST[1..][i] == Deny(BLOCKED[i], EPERM) {
      assert Refuses(i);
    }
    AllRefused(DENY_LIST[1..], BLOCKED, nr);
  }

  /** The sealed filter, 68 instructions long, on every input: foreign architectures kill the
      process, x32 calls fail, `clone3` gets ENOSYS, threads may be cloned and processes may
      not, blocked calls fail, and everything else passes. */
  lemma SealedFilter(d: SeccompData)
    ensures |Program(DENY_LIST)| == 68
    ensures Run(Program(DENY_LIST), d, 0, 0) == Some(
              if d.arch != 0xC000003E then KillProcess
              else if d.nr >= 0x40000000 then Errno(1)
              else if d.nr == 435 then Errno(38)
              else if d.nr == 56 then (if d.arg0 & 0x10000 != 0 then Allow else Errno(1))
              else if d.nr in BLOCKED then Errno(1)
              else Allow)
  {
    hide Run, Program, FirstMatch;
    ProgramComputesTable(DENY_LIST, d);
    ProgramLength(DENY_LIST);
    ListedIsBlocked(d.nr);
  }
}
