/**
 * Request records consumed by the command runners, with the defaults of
 * their pydantic models, and the path constants they default to.
 */
module Requests {
  import opened Wrappers

  /** Index workspace paths used as defaults. */
  const ROOT_DIR: string := "./ragtest"
  const CONFIG_FILE_PATH: string := "./ragtest/settings.yaml"
  const OUTPUT_DIR: string := "./ragtest/prompts"

  /**
   * `update_index_id` is declared `Optional[str]` but defaults to `False`;
   * `Unset` stands for that falsy default. No builder reads the field.
   */
  datatype UpdateIndexId = Unset | Id(value: string)

  /** `IndexingRequest`: identical field list in both revisions of the runner. */
  datatype IndexingRequest = IndexingRequest(
    root: string,
    init: bool,
    verbose: bool,
    resume: Option<string>,
    updateIndexId: UpdateIndexId,
    memprofile: bool,
    nocache: bool,
    reporter: Option<string>,
    configFilepath: Option<string>,
    emit: Option<string>,
    dryrun: bool,
    skipValidations: bool)

  /**
   * The pydantic defaults of every field but `root`: `init` on, the other
   * flags off, the optional strings `None`, `update_index_id` falsy.
   */
  predicate HasIndexingDefaults(r: IndexingRequest) {
    r.init && !r.verbose && r.resume.None? && r.updateIndexId.Unset? && !r.memprofile
    && !r.nocache && r.reporter.None? && r.configFilepath.None? && r.emit.None?
    && !r.dryrun && !r.skipValidations
  }

  /** `IndexingRequest(root=root)`: only `init` is on; optional fields are `None`. */
  function NewIndexingRequest(root: string): (r: IndexingRequest)
    ensures r.root == root && HasIndexingDefaults(r)
  {
    IndexingRequest(root, true, false, None, Unset, false, false, None, None, None, false, false)
  }

  /** `IndexingRequest()` of the subprocess runner, whose `root` defaults to the workspace directory. */
  function DefaultIndexingRequest(): (r: IndexingRequest)
    ensures r.root == ROOT_DIR && HasIndexingDefaults(r)
  {
    NewIndexingRequest(ROOT_DIR)
  }

  /** The defaults leave nothing open: a request with them is the constructor's for its root. */
  lemma IndexingDefaultsDetermine(r: IndexingRequest)
    ensures HasIndexingDefaults(r) <==> r == NewIndexingRequest(r.root)
  {
  }

  /** `PromptTuneRequest` of the subprocess runner: every field has a default. */
  datatype PromptTuneRequest = PromptTuneRequest(
    root: string,
    config: string,
    domain: Option<string>,
    limit: int,
    language: Option<string>,
    maxTokens: int,
    chunkSize: int,
    noEntityTypes: bool,
    output: string)

  function DefaultPromptTuneRequest(): PromptTuneRequest {
    PromptTuneRequest(ROOT_DIR, CONFIG_FILE_PATH, None, 15, None, 2048, 256, true, OUTPUT_DIR)
  }

  /** `PromptTuneRequest` of the earlier runner: `root` and `output` are required, and a sampling `method` (named `sampling` here). */
  datatype BasicPromptTuneRequest = BasicPromptTuneRequest(
    root: string,
    domain: Option<string>,
    sampling: string,
    limit: int,
    language: Option<string>,
    maxTokens: int,
    chunkSize: int,
    noEntityTypes: bool,
    output: string)

  function NewBasicPromptTuneRequest(root: string, output: string): BasicPromptTuneRequest {
    BasicPromptTuneRequest(root, None, "random", 15, None, 2048, 256, false, output)
  }

  /**
   * The two revisions share the sampling and size defaults but disagree on
   * whether entity types are suppressed by default.
   */
  lemma PromptTuneDefaultsCompared(root: string, output: string)
    ensures var a := DefaultPromptTuneRequest();
            var b := NewBasicPromptTuneRequest(root, output);
            && a.limit == b.limit == 15
            && a.maxTokens == b.maxTokens == 2048
            && a.chunkSize == b.chunkSize == 256
            && a.domain == b.domain == None
            && a.language == b.language == None
            && a.noEntityTypes && !b.noEntityTypes
            && b.sampling == "random"
            && b.root == root && b.output == output
  {
  }
}
