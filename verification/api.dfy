/**
 * The earlier command runner: a single indexing builder whose captured
 * output is returned exactly as the process produced it.
 */
module Api {
  import opened Wrappers
  import opened Argv
  import opened Requests
  import opened Runner
  import IndexApi

  /**
   * `CommandRunner.run_indexing_command`: the launcher, `--init` exactly when
   * requested, then `--root` and the root unless it is empty.
   */
  function IndexingCommand(req: IndexingRequest): (r: seq<string>)
    ensures r == IndexApi.Launcher("index") + IndexApi.SwitchKept(req.init, "--init") + ["--root"] + Kept(Some(req.root))
    ensures forall i :: 0 <= i < |r| ==> r[i] != ""
  {
    var t0 := IndexApi.LauncherSlots("index");
    var t1 := t0 + [IndexApi.Switch(req.init, "--init")];
    IndexApi.LauncherKept("index");
    IndexApi.SwitchSnoc(t0, req.init, "--init");
    DropFalsyFlagValue(t1, "--root", Some(req.root));
    DropFalsy(t1 + [Lit("--root")] + [Some(req.root)])
  }

  /** Launches the list and hands back stdout and stderr untouched: an empty stderr stays empty. */
  function RunIndexingCommand(req: IndexingRequest, exec: Exec): (out: Captured)
    ensures out.stdout == exec(IndexingCommand(req)).stdout
    ensures out.stderr == exec(IndexingCommand(req)).stderr
  {
    exec(IndexingCommand(req))
  }

  /**
   * Both revisions launch the same list for the same request; they differ only
   * in the later revision's "none" for an empty stderr.
   */
  lemma RevisionsAgree(req: IndexingRequest, exec: Exec)
    ensures IndexingCommand(req) == IndexApi.IndexingCommandDefault(req)
    ensures IndexApi.RunIndexingCommandDefault(req, exec) == ReportNoneIfEmpty(RunIndexingCommand(req, exec))
    ensures RunIndexingCommand(req, exec).stderr != "" ==>
              IndexApi.RunIndexingCommandDefault(req, exec) == RunIndexingCommand(req, exec)
  {
  }

  /** `IndexingRequest(root="./ragtest")`, as in the module's example run. */
  lemma IndexingExample()
    ensures IndexingCommand(NewIndexingRequest("./ragtest"))
            == IndexApi.Launcher("index") + ["--init", "--root", "./ragtest"]
  {
    assert Kept(Some("./ragtest")) == ["./ragtest"];
  }
}
