/**
 * What the command runners share: the captured output of the launched
 * process, the substitution of "none" for an empty stderr, and the
 * process-wide single instance.
 */
module Runner {
  import opened Wrappers

  /** The text `subprocess.run(..., capture_output=True, text=True)` hands back. */
  datatype Captured = Captured(stdout: string, stderr: string)

  /** The process launcher, a parameter of the model: it receives the argument list. */
  type Exec = seq<string> -> Captured

  /** `if not result.stderr: result.stderr = "none"`, then `(stdout, stderr)`. */
  function ReportNoneIfEmpty(c: Captured): (r: Captured)
    ensures r.stdout == c.stdout
    ensures r.stderr != ""
    ensures c.stderr != "" ==> r.stderr == c.stderr
    ensures c.stderr == "" ==> r.stderr == "none"
  {
    if c.stderr == "" then Captured(c.stdout, "none") else c
  }

  /** Reporting twice is reporting once: the substitute is itself non-empty. */
  lemma ReportNoneIfEmptyIdempotent(c: Captured)
    ensures ReportNoneIfEmpty(ReportNoneIfEmpty(c)) == ReportNoneIfEmpty(c)
  {
  }

  /** Instance identities handed out by `CommandRunner()`. */
  type InstanceId = nat

  /** The class attribute `_instance`. */
  datatype Registry = Registry(instance: Option<InstanceId>)

  /**
   * `CommandRunner()`: returns the stored instance, or stores and returns the
   * freshly allocated `alloc` when there is none.
   */
  function Obtain(reg: Registry, alloc: InstanceId): (r: (Registry, InstanceId))
    ensures r.0.instance == Some(r.1)
    ensures reg.instance.Some? ==> r.1 == reg.instance.value && r.0 == reg
    ensures reg.instance.None? ==> r.1 == alloc
  {
    match reg.instance
    case Some(id) => (reg, id)
    case None => (Registry(Some(alloc)), alloc)
  }

  /** `destroy_instance()`. */
  function Destroy(reg: Registry): (r: Registry)
    ensures r.instance.None?
  {
    Registry(None)
  }

  /** A run of sequential `CommandRunner()` calls, one alloc allocation offered per call. */
  function ObtainAll(reg: Registry, alloc: seq<InstanceId>): (r: (Registry, seq<InstanceId>))
    ensures |r.1| == |alloc|
    ensures reg.instance.Some? ==> r.0 == reg
    decreases |alloc|
  {
    if alloc == [] then (reg, [])
    else
      var (reg', id) := Obtain(reg, alloc[0]);
      var (reg'', ids) := ObtainAll(reg', alloc[1..]);
      (reg'', [id] + ids)
  }

  /** Once an instance exists, every later call returns that same instance. */
  lemma {:induction false} ObtainAllSame(reg: Registry, alloc: seq<InstanceId>)
    requires reg.instance.Some?
    ensures forall i :: 0 <= i < |alloc| ==> ObtainAll(reg, alloc).1[i] == reg.instance.value
    decreases |alloc|
  {
    if alloc != [] {
      ObtainAllSame(reg, alloc[1..]);
    }
  }

  /** From an empty registry, every call returns what the first call allocated. */
  lemma FirstInstanceShared(alloc: seq<InstanceId>)
    requires |alloc| >= 1
    ensures forall i :: 0 <= i < |alloc| ==> ObtainAll(Registry(None), alloc).1[i] == alloc[0]
  {
    ObtainAllSame(Registry(Some(alloc[0])), alloc[1..]);
  }
}
