/**
 * The subprocess command runner: four argument-list builders over the
 * request records, each followed by the "none" substitution on stderr.
 */
module IndexApi {
  import opened Wrappers
  import opened Argv
  import opened Decimal
  import opened Requests
  import opened Runner

  /** `["poetry", "run", "poe", task]`: the launcher prefix of every command. */
  function Launcher(task: string): seq<string> {
    ["poetry", "run", "poe", task]
  }

  function LauncherSlots(task: string): seq<Entry> {
    [Lit("poetry"), Lit("run"), Lit("poe"), Lit(task)]
  }

  lemma LauncherKept(task: string)
    requires task != ""
    ensures DropFalsy(LauncherSlots(task)) == Launcher(task)
  {
    var t := LauncherSlots(task);
    DropFalsyAppend([Lit("poetry"), Lit("run")], [Lit("poe"), Lit(task)]);
    assert t == [Lit("poetry"), Lit("run")] + [Lit("poe"), Lit(task)];
    DropFalsyPair(Lit("poetry"), Lit("run"));
    DropFalsyPair(Lit("poe"), Lit(task));
  }

  /** `"--x" if cond else ""`. */
  function Switch(cond: bool, flag: string): Entry {
    Lit(if cond then flag else "")
  }

  /** What a switch slot leaves in the list. */
  function SwitchKept(cond: bool, flag: string): seq<string> {
    if cond then [flag] else []
  }

  lemma SwitchIsKept(cond: bool, flag: string)
    requires flag != ""
    ensures Kept(Switch(cond, flag)) == SwitchKept(cond, flag)
  {
  }

  /** Appending a switch slot appends the flag exactly when the condition holds. */
  lemma SwitchSnoc(t: seq<Entry>, cond: bool, flag: string)
    requires flag != ""
    ensures DropFalsy(t + [Switch(cond, flag)]) == DropFalsy(t) + SwitchKept(cond, flag)
  {
    DropFalsySnoc(t, Switch(cond, flag));
    SwitchIsKept(cond, flag);
  }

  // ---------------------------------------------------------------- indexing

  function IndexingDefaultTemplate(req: IndexingRequest): seq<Entry> {
    LauncherSlots("index")
    + [Switch(req.init, "--init")]
    + [Lit("--root")] + [Some(req.root)]
  }

  /**
   * `run_indexing_command_default`'s argument list: the launcher, `--init`
   * exactly when requested, then `--root` and the root unless it is empty.
   */
  function IndexingCommandDefault(req: IndexingRequest): (r: seq<string>)
    ensures r == Launcher("index") + SwitchKept(req.init, "--init") + ["--root"] + Kept(Some(req.root))
    ensures forall i :: 0 <= i < |r| ==> r[i] != ""
  {
    var t0 := LauncherSlots("index");
    var t1 := t0 + [Switch(req.init, "--init")];
    LauncherKept("index");
    SwitchSnoc(t0, req.init, "--init");
    DropFalsyFlagValue(t1, "--root", Some(req.root));
    DropFalsy(IndexingDefaultTemplate(req))
  }

  function IndexingTemplate(req: IndexingRequest): seq<Entry> {
    IndexingDefaultTemplate(req)
    + [Lit("--config")] + [req.configFilepath]
    + [Lit("--resume")] + [req.resume]
    + [Lit("--emit")] + [req.emit]
  }

  /**
   * `run_indexing_command`'s argument list: as the default builder, then
   * `--config`, `--resume` and `--emit` unconditionally, each followed by its
   * value only when that value is truthy, so a `None` leaves the flag dangling.
   */
  function IndexingCommand(req: IndexingRequest): (r: seq<string>)
    ensures r == IndexingCommandDefault(req)
                 + ["--config"] + Kept(req.configFilepath)
                 + ["--resume"] + Kept(req.resume)
                 + ["--emit"] + Kept(req.emit)
    ensures forall i :: 0 <= i < |r| ==> r[i] != ""
  {
    var t0 := IndexingDefaultTemplate(req);
    var t1 := t0 + [Lit("--config")] + [req.configFilepath];
    var t2 := t1 + [Lit("--resume")] + [req.resume];
    DropFalsyFlagValue(t0, "--config", req.configFilepath);
    DropFalsyFlagValue(t1, "--resume", req.resume);
    DropFalsyFlagValue(t2, "--emit", req.emit);
    DropFalsy(IndexingTemplate(req))
  }

  /** A `None` (or empty) config path leaves `--config` directly before `--resume`. */
  lemma IndexingConfigDangles(req: IndexingRequest)
    requires !Truthy(req.configFilepath)
    ensures var r := IndexingCommand(req);
            var k := |IndexingCommandDefault(req)|;
            k + 1 < |r| && r[k] == "--config" && r[k + 1] == "--resume"
  {
    var d := IndexingCommandDefault(req);
    var a := d + ["--config"] + Kept(req.configFilepath) + ["--resume"];
    assert Kept(req.configFilepath) == [];
    assert a[|d|] == "--config" && a[|d| + 1] == "--resume";
    assert IndexingCommand(req) == a + Kept(req.resume) + ["--emit"] + Kept(req.emit);
  }

  // ------------------------------------------------------------- prompt tune

  function PromptTuneDefaultTemplate(req: PromptTuneRequest): seq<Entry> {
    LauncherSlots("prompt_tune")
    + [Lit("--root")] + [Some(req.root)]
    + [Lit("--config")] + [Some(req.config)]
    + [Lit("--output")] + [Some(req.output)]
    + [Switch(req.noEntityTypes, "--no-entity-types")]
  }

  /**
   * `run_prompt_tune_command_default`'s argument list: root, config and
   * output flags with their non-empty values, then `--no-entity-types`
   * exactly when requested.
   */
  function PromptTuneCommandDefault(req: PromptTuneRequest): (r: seq<string>)
    ensures r == Launcher("prompt_tune")
                 + ["--root"] + Kept(Some(req.root))
                 + ["--config"] + Kept(Some(req.config))
                 + ["--output"] + Kept(Some(req.output))
                 + SwitchKept(req.noEntityTypes, "--no-entity-types")
    ensures forall i :: 0 <= i < |r| ==> r[i] != ""
  {
    var t0 := LauncherSlots("prompt_tune");
    var t1 := t0 + [Lit("--root")] + [Some(req.root)];
    var t2 := t1 + [Lit("--config")] + [Some(req.config)];
    var t3 := t2 + [Lit("--output")] + [Some(req.output)];
    LauncherKept("prompt_tune");
    DropFalsyFlagValue(t0, "--root", Some(req.root));
    DropFalsyFlagValue(t1, "--config", Some(req.config));
    DropFalsyFlagValue(t2, "--output", Some(req.output));
    SwitchSnoc(t3, req.noEntityTypes, "--no-entity-types");
    DropFalsy(PromptTuneDefaultTemplate(req))
  }

  /** The slots of `run_prompt_tune_command` up to and including the optional `--domain`. */
  function PromptTuneHeadTemplate(req: PromptTuneRequest): seq<Entry> {
    LauncherSlots("prompt_tune")
    + [Lit("--root")] + [Some(req.root)]
    + [Lit("--config")] + [Some(req.config)]
    + [Switch(Truthy(req.domain), "--domain")]
  }

  /** What survives of the head slots: root and config, then `--domain` alone when the domain is truthy. */
  function PromptTuneHead(req: PromptTuneRequest): (r: seq<string>)
    ensures r == Launcher("prompt_tune")
                 + ["--root"] + Kept(Some(req.root))
                 + ["--config"] + Kept(Some(req.config))
                 + SwitchKept(Truthy(req.domain), "--domain")
  {
    var t0 := LauncherSlots("prompt_tune");
    var t1 := t0 + [Lit("--root")] + [Some(req.root)];
    var t2 := t1 + [Lit("--config")] + [Some(req.config)];
    LauncherKept("prompt_tune");
    DropFalsyFlagValue(t0, "--root", Some(req.root));
    DropFalsyFlagValue(t1, "--config", Some(req.config));
    SwitchSnoc(t2, Truthy(req.domain), "--domain");
    DropFalsy(PromptTuneHeadTemplate(req))
  }

  /** The size slots: `--limit`, the optional bare `--language`, `--max-tokens`, `--chunk-size`. */
  function PromptTuneSizesTemplate(req: PromptTuneRequest): seq<Entry> {
    [Lit("--limit"), Lit(IntToString(req.limit))]
    + [Switch(Truthy(req.language), "--language")]
    + [Lit("--max-tokens")] + [Lit(IntToString(req.maxTokens))]
    + [Lit("--chunk-size")] + [Lit(IntToString(req.chunkSize))]
  }

  /** Each number flag keeps its decimal value; `--language` survives alone when the language is truthy. */
  function PromptTuneSizes(req: PromptTuneRequest): (r: seq<string>)
    ensures r == ["--limit"] + [IntToString(req.limit)]
                 + SwitchKept(Truthy(req.language), "--language")
                 + ["--max-tokens"] + [IntToString(req.maxTokens)]
                 + ["--chunk-size"] + [IntToString(req.chunkSize)]
  {
    var t1 := [Lit("--limit"), Lit(IntToString(req.limit))];
    var t2 := t1 + [Switch(Truthy(req.language), "--language")];
    var t3 := t2 + [Lit("--max-tokens")] + [Lit(IntToString(req.maxTokens))];
    DropFalsyPair(Lit("--limit"), Lit(IntToString(req.limit)));
    SwitchSnoc(t1, Truthy(req.language), "--language");
    DropFalsyFlagValue(t2, "--max-tokens", Lit(IntToString(req.maxTokens)));
    DropFalsyFlagValue(t3, "--chunk-size", Lit(IntToString(req.chunkSize)));
    DropFalsy(PromptTuneSizesTemplate(req))
  }

  /** The closing slots: the optional `--no-entity-types`, then `--output` and its path. */
  function PromptTuneTrailerTemplate(req: PromptTuneRequest): seq<Entry> {
    [Switch(req.noEntityTypes, "--no-entity-types")]
    + [Lit("--output")] + [Some(req.output)]
  }

  function PromptTuneTrailer(req: PromptTuneRequest): (r: seq<string>)
    ensures r == SwitchKept(req.noEntityTypes, "--no-entity-types") + ["--output"] + Kept(Some(req.output))
  {
    var t1 := [Switch(req.noEntityTypes, "--no-entity-types")];
    assert DropFalsy(t1) == Kept(Switch(req.noEntityTypes, "--no-entity-types"));
    SwitchIsKept(req.noEntityTypes, "--no-entity-types");
    DropFalsyFlagValue(t1, "--output", Some(req.output));
    DropFalsy(PromptTuneTrailerTemplate(req))
  }

  function PromptTuneTemplate(req: PromptTuneRequest): seq<Entry> {
    PromptTuneHeadTemplate(req) + PromptTuneSizesTemplate(req) + PromptTuneTrailerTemplate(req)
  }

  /**
   * `run_prompt_tune_command`'s argument list: `--domain` and `--language`
   * appear exactly when their fields are truthy, but never with their values;
   * `--limit`, `--max-tokens` and `--chunk-size` always appear, each followed
   * by the decimal text of its number.
   */
  function PromptTuneCommand(req: PromptTuneRequest): (r: seq<string>)
    ensures r == PromptTuneHead(req) + PromptTuneSizes(req) + PromptTuneTrailer(req)
    ensures forall i :: 0 <= i < |r| ==> r[i] != ""
  {
    var a := PromptTuneHeadTemplate(req);
    var b := PromptTuneSizesTemplate(req);
    DropFalsyAppend(a + b, PromptTuneTrailerTemplate(req));
    DropFalsyAppend(a, b);
    DropFalsy(PromptTuneTemplate(req))
  }

  // ----------------------------------------------------------------- running

  /** `run_indexing_command_default`: launch the built list, report stdout as is and stderr as "none" when empty. */
  function RunIndexingCommandDefault(req: IndexingRequest, exec: Exec): (out: Captured)
    ensures out.stdout == exec(IndexingCommandDefault(req)).stdout
    ensures out.stderr == (if exec(IndexingCommandDefault(req)).stderr == "" then "none" else exec(IndexingCommandDefault(req)).stderr)
  {
    ReportNoneIfEmpty(exec(IndexingCommandDefault(req)))
  }

  /** `run_indexing_command`: as above, for the list with config, resume and emit flags. */
  function RunIndexingCommand(req: IndexingRequest, exec: Exec): (out: Captured)
    ensures out.stdout == exec(IndexingCommand(req)).stdout
    ensures out.stderr == (if exec(IndexingCommand(req)).stderr == "" then "none" else exec(IndexingCommand(req)).stderr)
  {
    ReportNoneIfEmpty(exec(IndexingCommand(req)))
  }

  /** `run_prompt_tune_command_default`. */
  function RunPromptTuneCommandDefault(req: PromptTuneRequest, exec: Exec): (out: Captured)
    ensures out.stdout == exec(PromptTuneCommandDefault(req)).stdout
    ensures out.stderr == (if exec(PromptTuneCommandDefault(req)).stderr == "" then "none" else exec(PromptTuneCommandDefault(req)).stderr)
  {
    ReportNoneIfEmpty(exec(PromptTuneCommandDefault(req)))
  }

  /** `run_prompt_tune_command`. */
  function RunPromptTuneCommand(req: PromptTuneRequest, exec: Exec): (out: Captured)
    ensures out.stdout == exec(PromptTuneCommand(req)).stdout
    ensures out.stderr == (if exec(PromptTuneCommand(req)).stderr == "" then "none" else exec(PromptTuneCommand(req)).stderr)
  {
    ReportNoneIfEmpty(exec(PromptTuneCommand(req)))
  }

  // -------------------------------------------------------------- properties

  /** No decimal rendering of a number is a flag of the command line. */
  lemma DecimalIsNotFlag(n: int, flag: string)
    requires |flag| >= 2 && flag[0] == '-' && flag[1] == '-'
    ensures IntToString(n) != flag
  {
    var s := IntToString(n);
    if n < 0 {
      assert s[1] == s[1..][0];
      assert IsDigit(s[1]);
    } else {
      assert IsDigit(s[0]);
    }
  }

  /** None of the request's path fields is spelled `flag`. */
  predicate NoPathIs(req: PromptTuneRequest, flag: string) {
    req.root != flag && req.config != flag && req.output != flag
  }

  /** The domain's value never reaches the list: only its truthiness matters. */
  lemma PromptTuneDomainValueIgnored(req: PromptTuneRequest, d: Option<string>)
    requires Truthy(d) == Truthy(req.domain)
    ensures PromptTuneCommand(req.(domain := d)) == PromptTuneCommand(req)
  {
  }

  /** The language's value never reaches the list: only its truthiness matters. */
  lemma PromptTuneLanguageValueIgnored(req: PromptTuneRequest, l: Option<string>)
    requires Truthy(l) == Truthy(req.language)
    ensures PromptTuneCommand(req.(language := l)) == PromptTuneCommand(req)
  {
  }

  /** Which strings of the `--`-prefixed kind can occur in the head of the list. */
  lemma HeadMembers(req: PromptTuneRequest, flag: string)
    requires |flag| >= 2 && flag[0] == '-' && flag[1] == '-'
    requires flag != "--root" && flag != "--config" && NoPathIs(req, flag)
    ensures flag in PromptTuneHead(req) <==> flag == "--domain" && Truthy(req.domain)
  {
    assert flag !in Launcher("prompt_tune");
  }

  /** Which strings of the `--`-prefixed kind can occur in the middle part. */
  lemma SizesMembers(req: PromptTuneRequest, flag: string)
    requires |flag| >= 2 && flag[0] == '-' && flag[1] == '-'
    requires flag != "--limit" && flag != "--max-tokens" && flag != "--chunk-size"
    ensures flag in PromptTuneSizes(req) <==> flag == "--language" && Truthy(req.language)
  {
    DecimalIsNotFlag(req.limit, flag);
    DecimalIsNotFlag(req.maxTokens, flag);
    DecimalIsNotFlag(req.chunkSize, flag);
  }

  /** Which strings other than `--output` and the output path can occur in the tail. */
  lemma TrailerMembers(req: PromptTuneRequest, flag: string)
    requires flag != "--output" && flag != req.output
    ensures flag in PromptTuneTrailer(req) <==> flag == "--no-entity-types" && req.noEntityTypes
  {
  }

  /** Unless a path is spelled `--domain`, that flag occurs exactly when the domain is truthy. */
  lemma PromptTuneDomainFlagIff(req: PromptTuneRequest)
    requires NoPathIs(req, "--domain")
    ensures "--domain" in PromptTuneCommand(req) <==> Truthy(req.domain)
  {
    HeadMembers(req, "--domain");
    SizesMembers(req, "--domain");
    TrailerMembers(req, "--domain");
  }

  /** Unless a path is spelled `--language`, that flag occurs exactly when the language is truthy. */
  lemma PromptTuneLanguageFlagIff(req: PromptTuneRequest)
    requires NoPathIs(req, "--language")
    ensures "--language" in PromptTuneCommand(req) <==> Truthy(req.language)
  {
    HeadMembers(req, "--language");
    SizesMembers(req, "--language");
    TrailerMembers(req, "--language");
  }

  /** Unless a path is spelled `--no-entity-types`, that flag occurs exactly when requested. */
  lemma PromptTuneNoEntityTypesIff(req: PromptTuneRequest)
    requires NoPathIs(req, "--no-entity-types")
    ensures "--no-entity-types" in PromptTuneCommand(req) <==> req.noEntityTypes
  {
    HeadMembers(req, "--no-entity-types");
    SizesMembers(req, "--no-entity-types");
    TrailerMembers(req, "--no-entity-types");
  }

  /** In the default prompt-tune builder too, `--no-entity-types` occurs exactly when requested. */
  lemma PromptTuneDefaultNoEntityTypesIff(req: PromptTuneRequest)
    requires NoPathIs(req, "--no-entity-types")
    ensures "--no-entity-types" in PromptTuneCommandDefault(req) <==> req.noEntityTypes
  {
  }

  /**
   * Each number flag is immediately followed by the decimal text of its
   * field, which `IntToStringRoundTrip` reads back to the number.
   */
  lemma PromptTuneNumbersFollowFlags(req: PromptTuneRequest)
    ensures var r := PromptTuneCommand(req);
            var k := |PromptTuneHead(req)|;
            var m := k + 2 + |SwitchKept(Truthy(req.language), "--language")|;
            && m + 3 < |r|
            && r[k] == "--limit" && r[k + 1] == IntToString(req.limit)
            && r[m] == "--max-tokens" && r[m + 1] == IntToString(req.maxTokens)
            && r[m + 2] == "--chunk-size" && r[m + 3] == IntToString(req.chunkSize)
  {
    var head, sizes, trailer := PromptTuneHead(req), PromptTuneSizes(req), PromptTuneTrailer(req);
    var lang := SwitchKept(Truthy(req.language), "--language");
    SizesPositions(req);
    IndexInMiddle(head, sizes, trailer, 0);
    IndexInMiddle(head, sizes, trailer, 1);
    IndexInMiddle(head, sizes, trailer, 2 + |lang|);
    IndexInMiddle(head, sizes, trailer, 3 + |lang|);
    IndexInMiddle(head, sizes, trailer, 4 + |lang|);
    IndexInMiddle(head, sizes, trailer, 5 + |lang|);
  }

  /** Where the numbers sit in the middle part. */
  lemma SizesPositions(req: PromptTuneRequest)
    ensures var sizes := PromptTuneSizes(req);
            var l := |SwitchKept(Truthy(req.language), "--language")|;
            && |sizes| == 6 + l
            && sizes[0] == "--limit" && sizes[1] == IntToString(req.limit)
            && sizes[2 + l] == "--max-tokens" && sizes[3 + l] == IntToString(req.maxTokens)
            && sizes[4 + l] == "--chunk-size" && sizes[5 + l] == IntToString(req.chunkSize)
  {
  }

  /** Position `|a| + j` of `a + b + c` holds `b[j]`. */
  lemma IndexInMiddle(a: seq<string>, b: seq<string>, c: seq<string>, j: nat)
    requires j < |b|
    ensures (a + b + c)[|a| + j] == b[j]
  {
  }

  /** `IndexingRequest(init=False)` with the default root, as in the module's example run. */
  lemma IndexingDefaultExample()
    ensures IndexingCommandDefault(DefaultIndexingRequest().(init := false))
            == Launcher("index") + ["--root", ROOT_DIR]
  {
    var req := DefaultIndexingRequest().(init := false);
    assert Kept(Some(req.root)) == [ROOT_DIR];
  }

  /** Without a domain (the default), the head is the launcher, root and config, and no `--domain`. */
  lemma PromptTuneDefaultHead(req: PromptTuneRequest)
    requires !Truthy(req.domain) && req.root != "" && req.config != ""
    ensures PromptTuneHead(req) == Launcher("prompt_tune") + ["--root", req.root, "--config", req.config]
  {
    assert Kept(Some(req.root)) == [req.root];
    assert Kept(Some(req.config)) == [req.config];
  }

  /** With entity types suppressed (the default), the tail is that switch, then the output path. */
  lemma PromptTuneDefaultTrailer(req: PromptTuneRequest)
    requires req.noEntityTypes && req.output != ""
    ensures PromptTuneTrailer(req) == ["--no-entity-types", "--output", req.output]
  {
    assert Kept(Some(req.output)) == [req.output];
  }

  /** With the default numbers and no language, the middle part renders as `15`, `2048` and `256`. */
  lemma PromptTuneDefaultSizes(req: PromptTuneRequest)
    requires req.limit == 15 && req.maxTokens == 2048 && req.chunkSize == 256 && !Truthy(req.language)
    ensures PromptTuneSizes(req) == ["--limit", "15", "--max-tokens", "2048", "--chunk-size", "256"]
  {
    assert IntToString(15) == "15" by {
      assert NatToString(1) == "1";
    }
    assert IntToString(2048) == "2048" by {
      assert NatToString(2) == "2";
      assert NatToString(20) == "20";
      assert NatToString(204) == "204";
    }
    assert IntToString(256) == "256" by {
      assert NatToString(2) == "2";
      assert NatToString(25) == "25";
    }
  }

  /** `PromptTuneRequest()` with every default, as the workspace pipeline issues it. */
  lemma PromptTuneDefaultExample()
    ensures PromptTuneCommand(DefaultPromptTuneRequest())
            == Launcher("prompt_tune") + ["--root", ROOT_DIR, "--config", CONFIG_FILE_PATH]
             + ["--limit", "15", "--max-tokens", "2048", "--chunk-size", "256"]
             + ["--no-entity-types", "--output", OUTPUT_DIR]
  {
    PromptTuneDefaultHead(DefaultPromptTuneRequest());
    PromptTuneDefaultSizes(DefaultPromptTuneRequest());
    PromptTuneDefaultTrailer(DefaultPromptTuneRequest());
  }
}
