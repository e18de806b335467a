/**
 * `RagClientInit.initialize_config` with its file reads and writes taken
 * out: from the user's `.env` entries and the loaded settings tree it
 * computes what is written to the engine's `.env` and the settings tree
 * that is written back. `get_config_for_query` is the API-key lookup.
 */
module RagClientInit {
  import opened Wrappers
  import opened Settings
  import Dotenv

  /** The dictionary `DotenvManager.read_env` returns. */
  type UserConfig = map<string, string>

  const API_KEY := "GRAPHRAG_API_KEY"
  const API_BASE := "API_BASE"
  const MODEL_ID := "MODEL_ID"
  const EMBEDDING_MODEL_ID := "EMBEDDING_MODEL_ID"
  const CLAIM_EXTRACTION := "CLAIM_EXTRACTION"

  /** The three containers the statements index, in the order they are first indexed. */
  const EMB_LLM: Path := ["embeddings", "llm"]
  const LLM: Path := ["llm"]
  const CLAIM: Path := ["claim_extraction"]

  /** The five settings the reconciliation assigns. */
  const EMB_API_BASE: Path := ["embeddings", "llm", "api_base"]
  const LLM_API_BASE: Path := ["llm", "api_base"]
  const LLM_MODEL: Path := ["llm", "model"]
  const EMB_MODEL: Path := ["embeddings", "llm", "model"]
  const CLAIM_ENABLED: Path := ["claim_extraction", "enabled"]

  /** `user.get(key, current)`, with the user's string stored as a YAML string. */
  function Fallback(user: UserConfig, key: string, current: Node): Node {
    if key in user then Str(user[key]) else current
  }

  /** `claim_extraction.enabled` is true exactly for the string `"True"`. */
  function ClaimFlag(user: UserConfig): Node {
    Bool(Dotenv.Get(user, CLAIM_EXTRACTION) == Some("True"))
  }

  /** The shape the statements need: each container they index is a mapping. */
  predicate WellShaped(t: Node) {
    MappingAt(t, EMB_LLM) && MappingAt(t, LLM) && MappingAt(t, CLAIM)
  }

  /** One of the four settings assigned with a fallback, or the claim-extraction flag. */
  predicate Assigned(p: Path) {
    p == EMB_API_BASE || p == LLM_API_BASE || p == LLM_MODEL || p == EMB_MODEL || p == CLAIM_ENABLED
  }

  /** One of the containers the statements index. */
  predicate Indexed(c: Path) {
    c == EMB_LLM || c == LLM || c == CLAIM
  }

  /**
   * One statement `cfg[c..][field] = user.get(key, cfg[c..].get(field))`
   * for the setting `p` = `c + [field]`. Indexing a missing key or a
   * non-mapping raises; the error names the container the statement indexes.
   */
  function Assign(user: UserConfig, t: Node, p: Path, key: string): (r: Result<Node, Path>)
    requires p != []
    ensures r.Err? <==> !MappingAt(t, p[..|p| - 1])
  {
    if !MappingAt(t, p[..|p| - 1]) then Err(p[..|p| - 1])
    else
      CanSetIff(t, p);
      Ok(SetPath(t, p, Fallback(user, key, Field(t, p))))
  }

  /** Lines 41-57: four fallback assignments, then the claim-extraction flag. */
  function Update(user: UserConfig, t: Node): (r: Result<Node, Path>)
  {
    var t1 :- Assign(user, t, EMB_API_BASE, API_BASE);
    var t2 :- Assign(user, t1, LLM_API_BASE, API_BASE);
    var t3 :- Assign(user, t2, LLM_MODEL, MODEL_ID);
    var t4 :- Assign(user, t3, EMB_MODEL, EMBEDDING_MODEL_ID);
    if !MappingAt(t4, CLAIM) then Err(CLAIM)
    else
      CanSetIff(t4, CLAIM_ENABLED);
      assert CLAIM_ENABLED[..1] == CLAIM;
      Ok(SetPath(t4, CLAIM_ENABLED, ClaimFlag(user)))
  }

  /** Why `initialize_config` raises before it reaches the settings statements. */
  datatype InitError =
    | UnreadableEnv(cause: Dotenv.EnvError)  // `read_env` on the user's file
    | KeyNotWritten                          // `set_key` given `None` for a missing API key

  /**
   * What a call that gets past the `.env` write does: the engine `.env`
   * holds the user's API key (written before any settings access can
   * raise) and the settings either fail or become the updated tree.
   */
  datatype Outcome = Outcome(engineEnv: map<string, string>, settings: Result<Node, Path>)

  /**
   * Lines 36-57 once the user's entries are read. `user.get(...)` is `None`
   * for a missing key, and python-dotenv's `set_key` raises on a value that
   * is not a string, so the call stops there and the settings are untouched.
   */
  function Reconcile(user: UserConfig, t: Node): (r: Result<Outcome, InitError>)
    ensures r.Err? <==> API_KEY !in user
    ensures r.Err? ==> r.error == KeyNotWritten
    ensures r.Ok? ==> r.value.engineEnv.Keys == {API_KEY} && r.value.engineEnv[API_KEY] == user[API_KEY]
    ensures r.Ok? ==> r.value.settings == Update(user, t)
    ensures r.Ok? ==> (r.value.settings.Err? <==> !WellShaped(t))
  {
    match Dotenv.Get(user, API_KEY)
    case None => Err(KeyNotWritten)
    case Some(key) =>
      UpdateFails(user, t);
      Ok(Outcome(map[API_KEY := key], Update(user, t)))
  }

  /**
   * The whole method: reading the user's `.env` may raise first, then the
   * write of a missing key; in both cases nothing reaches the settings.
   */
  function InitializeConfig(userLines: seq<string>, t: Node): (r: Result<Outcome, InitError>)
    ensures r.Err? && r.error.UnreadableEnv? <==> Dotenv.ReadEnv(userLines).Err?
    ensures r.Err? && r.error.UnreadableEnv? ==> r.error.cause == Dotenv.ReadEnv(userLines).error
    ensures r == Err(KeyNotWritten)
            <==> Dotenv.ReadEnv(userLines).Ok?
                 && Dotenv.LastValue(Dotenv.ParseLines(userLines), API_KEY).None?
    ensures r.Ok? ==> r.value.engineEnv.Keys == {API_KEY}
                      && Some(r.value.engineEnv[API_KEY])
                         == Dotenv.LastValue(Dotenv.ParseLines(userLines), API_KEY)
    ensures r.Ok? ==> r.value.settings == Update(Dotenv.ReadEnv(userLines).value, t)
    ensures r.Ok? ==> (r.value.settings.Err? <==> !WellShaped(t))
  {
    match Dotenv.ReadEnv(userLines)
    case Err(e) => Err(UnreadableEnv(e))
    case Ok(user) =>
      assert Dotenv.Get(user, API_KEY) == Dotenv.LastValue(Dotenv.ParseLines(userLines), API_KEY);
      Reconcile(user, t)
  }

  /** An empty user `.env` (the file the reader creates when there is none) stops the call at the key write. */
  lemma EmptyUserEnvStops(t: Node)
    ensures InitializeConfig([], t) == Err(KeyNotWritten)
  {
    assert Dotenv.ParseLines([]) == [];
  }

  /** `get_config_for_query`: the API key of the last kept line that sets it, or `None`. */
  function GetConfigForQuery(lines: seq<string>): (r: Result<Option<string>, Dotenv.EnvError>)
    ensures r.Ok? <==> Dotenv.ReadEnv(lines).Ok?
    ensures r.Ok? ==> r.value == Dotenv.LastValue(Dotenv.ParseLines(lines), API_KEY)
    ensures r.Err? ==> r.error == Dotenv.ReadEnv(lines).error
  {
    var config :- Dotenv.ReadEnv(lines);
    Ok(Dotenv.Get(config, API_KEY))
  }

  // ------------------------------------------------------------------ lemmas

  /** An assignment at `p` leaves the mapping-ness of every path off its way as it was. */
  lemma SetPathMappingAt(t: Node, p: Path, v: Node, c: Path)
    requires CanSet(t, p) && !IsPrefix(p, c)
    ensures MappingAt(SetPath(t, p, v), c) == MappingAt(t, c)
  {
    if IsPrefix(c, p) {
      SetPathAbove(t, p, v, c);
    } else {
      SetPathFrame(t, p, v, c);
    }
  }

  /** The statements' containers are not below any assigned setting. */
  lemma ContainersOffFields(p: Path, c: Path)
    requires Assigned(p) && Indexed(c)
    ensures !IsPrefix(p, c)
  {
    assert |p| >= 2 && |c| <= 2;
    assert |p| == 2 ==> p[0] != "embeddings";
    assert |c| == 2 ==> c[0] == "embeddings";
  }

  /** A successful assignment keeps every container's shape. */
  lemma AssignKeepsShape(user: UserConfig, t: Node, p: Path, key: string, c: Path)
    requires Assigned(p) && Indexed(c) && MappingAt(t, p[..|p| - 1])
    ensures MappingAt(Assign(user, t, p, key).value, c) == MappingAt(t, c)
  {
    CanSetIff(t, p);
    ContainersOffFields(p, c);
    SetPathMappingAt(t, p, Fallback(user, key, Field(t, p)), c);
  }

  /** A statement whose container is a mapping succeeds and keeps the shape of all three containers. */
  lemma AssignShapes(user: UserConfig, t: Node, p: Path, key: string)
    requires Assigned(p) && MappingAt(t, p[..|p| - 1])
    ensures Assign(user, t, p, key).Ok?
    ensures MappingAt(Assign(user, t, p, key).value, EMB_LLM) == MappingAt(t, EMB_LLM)
    ensures MappingAt(Assign(user, t, p, key).value, LLM) == MappingAt(t, LLM)
    ensures MappingAt(Assign(user, t, p, key).value, CLAIM) == MappingAt(t, CLAIM)
  {
    AssignKeepsShape(user, t, p, key, EMB_LLM);
    AssignKeepsShape(user, t, p, key, LLM);
    AssignKeepsShape(user, t, p, key, CLAIM);
  }

  /** The update fails exactly on a badly shaped tree, naming the first container that is not a mapping. */
  lemma UpdateFails(user: UserConfig, t: Node)
    ensures Update(user, t).Err? <==> !WellShaped(t)
    ensures Update(user, t).Err? ==>
              Update(user, t).error
              == (if !MappingAt(t, EMB_LLM) then EMB_LLM else if !MappingAt(t, LLM) then LLM else CLAIM)
  {
    if !MappingAt(t, EMB_LLM) {
      assert EMB_API_BASE[..2] == EMB_LLM;
    } else if !MappingAt(t, LLM) {
      FailsAtLlm(user, t);
    } else if !MappingAt(t, CLAIM) {
      FailsAtClaim(user, t);
    } else {
      var t1, t2, t3, t4 := Stages(user, t);
    }
  }

  /** With `embeddings.llm` a mapping and `llm` not, the second statement raises. */
  lemma FailsAtLlm(user: UserConfig, t: Node)
    requires MappingAt(t, EMB_LLM) && !MappingAt(t, LLM)
    ensures Update(user, t) == Err(LLM)
  {
    assert EMB_API_BASE[..2] == EMB_LLM;
    assert LLM_API_BASE[..1] == LLM;
    AssignShapes(user, t, EMB_API_BASE, API_BASE);
  }

  /** With both model containers mappings and `claim_extraction` not, the last statement raises. */
  lemma FailsAtClaim(user: UserConfig, t: Node)
    requires MappingAt(t, EMB_LLM) && MappingAt(t, LLM) && !MappingAt(t, CLAIM)
    ensures Update(user, t) == Err(CLAIM)
  {
    assert EMB_API_BASE[..2] == EMB_MODEL[..2] == EMB_LLM;
    assert LLM_API_BASE[..1] == LLM_MODEL[..1] == LLM;
    AssignShapes(user, t, EMB_API_BASE, API_BASE);
    var t1 := Assign(user, t, EMB_API_BASE, API_BASE).value;
    AssignShapes(user, t1, LLM_API_BASE, API_BASE);
    var t2 := Assign(user, t1, LLM_API_BASE, API_BASE).value;
    AssignShapes(user, t2, LLM_MODEL, MODEL_ID);
    var t3 := Assign(user, t2, LLM_MODEL, MODEL_ID).value;
    AssignShapes(user, t3, EMB_MODEL, EMBEDDING_MODEL_ID);
  }

  /** Any two assigned settings lie on separate branches of the tree. */
  lemma SettingsIncomparable(p: Path, q: Path)
    requires Assigned(p) && Assigned(q) && p != q
    ensures Incomparable(p, q)
  {
    assert |p| >= 2 && |q| >= 2;
    if p[0] != q[0] {
      DifferAt(p, q, 0);
    } else if p[1] != q[1] {
      DifferAt(p, q, 1);
    } else {
      assert |p| == 3 && |q| == 3;
      DifferAt(p, q, 2);
    }
  }

  lemma AssignHit(user: UserConfig, t: Node, p: Path, key: string)
    requires p != [] && MappingAt(t, p[..|p| - 1])
    ensures Lookup(Assign(user, t, p, key).value, p) == Some(Fallback(user, key, Field(t, p)))
  {
    CanSetIff(t, p);
    SetPathHit(t, p, Fallback(user, key, Field(t, p)));
  }

  lemma AssignFrame(user: UserConfig, t: Node, p: Path, key: string, q: Path)
    requires p != [] && MappingAt(t, p[..|p| - 1]) && Incomparable(p, q)
    ensures Lookup(Assign(user, t, p, key).value, q) == Lookup(t, q)
  {
    CanSetIff(t, p);
    SetPathFrame(t, p, Fallback(user, key, Field(t, p)), q);
  }

  /** The intermediate trees of a successful update, each still well shaped. */
  lemma Stages(user: UserConfig, t: Node) returns (t1: Node, t2: Node, t3: Node, t4: Node)
    requires WellShaped(t)
    ensures EMB_API_BASE[..2] == EMB_MODEL[..2] == EMB_LLM
    ensures LLM_API_BASE[..1] == LLM_MODEL[..1] == LLM && CLAIM_ENABLED[..1] == CLAIM
    ensures WellShaped(t1) && WellShaped(t2) && WellShaped(t3) && WellShaped(t4)
    ensures Assign(user, t, EMB_API_BASE, API_BASE) == Ok(t1)
    ensures Assign(user, t1, LLM_API_BASE, API_BASE) == Ok(t2)
    ensures Assign(user, t2, LLM_MODEL, MODEL_ID) == Ok(t3)
    ensures Assign(user, t3, EMB_MODEL, EMBEDDING_MODEL_ID) == Ok(t4)
    ensures CanSet(t4, CLAIM_ENABLED)
    ensures Update(user, t) == Ok(SetPath(t4, CLAIM_ENABLED, ClaimFlag(user)))
  {
    assert EMB_API_BASE[..2] == EMB_MODEL[..2] == EMB_LLM;
    assert LLM_API_BASE[..1] == LLM_MODEL[..1] == LLM && CLAIM_ENABLED[..1] == CLAIM;
    AssignShapes(user, t, EMB_API_BASE, API_BASE);
    t1 := Assign(user, t, EMB_API_BASE, API_BASE).value;
    AssignShapes(user, t1, LLM_API_BASE, API_BASE);
    t2 := Assign(user, t1, LLM_API_BASE, API_BASE).value;
    AssignShapes(user, t2, LLM_MODEL, MODEL_ID);
    t3 := Assign(user, t2, LLM_MODEL, MODEL_ID).value;
    AssignShapes(user, t3, EMB_MODEL, EMBEDDING_MODEL_ID);
    t4 := Assign(user, t3, EMB_MODEL, EMBEDDING_MODEL_ID).value;
    CanSetIff(t4, CLAIM_ENABLED);
  }

  /**
   * On a well-shaped tree the update succeeds and every assigned setting
   * holds what its statement computes from the ORIGINAL tree: the user's
   * value when the key is present, the old value otherwise, and the flag.
   */
  lemma UpdateFields(user: UserConfig, t: Node)
    requires WellShaped(t)
    ensures Update(user, t).Ok?
    ensures Lookup(Update(user, t).value, EMB_API_BASE) == Some(Fallback(user, API_BASE, Field(t, EMB_API_BASE)))
    ensures Lookup(Update(user, t).value, LLM_API_BASE) == Some(Fallback(user, API_BASE, Field(t, LLM_API_BASE)))
    ensures Lookup(Update(user, t).value, LLM_MODEL) == Some(Fallback(user, MODEL_ID, Field(t, LLM_MODEL)))
    ensures Lookup(Update(user, t).value, EMB_MODEL) == Some(Fallback(user, EMBEDDING_MODEL_ID, Field(t, EMB_MODEL)))
    ensures Lookup(Update(user, t).value, CLAIM_ENABLED) == Some(ClaimFlag(user))
  {
    var t1, t2, t3, t4 := Stages(user, t);
    var r := SetPath(t4, CLAIM_ENABLED, ClaimFlag(user));
    SettingsIncomparable(EMB_API_BASE, LLM_API_BASE);
    SettingsIncomparable(EMB_API_BASE, LLM_MODEL);
    SettingsIncomparable(EMB_API_BASE, EMB_MODEL);
    SettingsIncomparable(EMB_API_BASE, CLAIM_ENABLED);
    SettingsIncomparable(LLM_API_BASE, LLM_MODEL);
    SettingsIncomparable(LLM_API_BASE, EMB_MODEL);
    SettingsIncomparable(LLM_API_BASE, CLAIM_ENABLED);
    SettingsIncomparable(LLM_MODEL, EMB_MODEL);
    SettingsIncomparable(LLM_MODEL, CLAIM_ENABLED);
    SettingsIncomparable(EMB_MODEL, CLAIM_ENABLED);
    // api_base under embeddings.llm: set first, untouched afterwards
    AssignHit(user, t, EMB_API_BASE, API_BASE);
    AssignFrame(user, t1, LLM_API_BASE, API_BASE, EMB_API_BASE);
    AssignFrame(user, t2, LLM_MODEL, MODEL_ID, EMB_API_BASE);
    AssignFrame(user, t3, EMB_MODEL, EMBEDDING_MODEL_ID, EMB_API_BASE);
    SetPathFrame(t4, CLAIM_ENABLED, ClaimFlag(user), EMB_API_BASE);
    // api_base under llm: read after the first statement, which did not touch it
    AssignFrame(user, t, EMB_API_BASE, API_BASE, LLM_API_BASE);
    AssignHit(user, t1, LLM_API_BASE, API_BASE);
    AssignFrame(user, t2, LLM_MODEL, MODEL_ID, LLM_API_BASE);
    AssignFrame(user, t3, EMB_MODEL, EMBEDDING_MODEL_ID, LLM_API_BASE);
    SetPathFrame(t4, CLAIM_ENABLED, ClaimFlag(user), LLM_API_BASE);
    // llm.model
    AssignFrame(user, t, EMB_API_BASE, API_BASE, LLM_MODEL);
    AssignFrame(user, t1, LLM_API_BASE, API_BASE, LLM_MODEL);
    AssignHit(user, t2, LLM_MODEL, MODEL_ID);
    AssignFrame(user, t3, EMB_MODEL, EMBEDDING_MODEL_ID, LLM_MODEL);
    SetPathFrame(t4, CLAIM_ENABLED, ClaimFlag(user), LLM_MODEL);
    // embeddings.llm.model
    AssignFrame(user, t, EMB_API_BASE, API_BASE, EMB_MODEL);
    AssignFrame(user, t1, LLM_API_BASE, API_BASE, EMB_MODEL);
    AssignFrame(user, t2, LLM_MODEL, MODEL_ID, EMB_MODEL);
    AssignHit(user, t3, EMB_MODEL, EMBEDDING_MODEL_ID);
    SetPathFrame(t4, CLAIM_ENABLED, ClaimFlag(user), EMB_MODEL);
    // claim_extraction.enabled
    SetPathHit(t4, CLAIM_ENABLED, ClaimFlag(user));
  }

  /** A path that neither leads to nor goes through any assigned setting. */
  predicate OffSettings(q: Path) {
    Incomparable(EMB_API_BASE, q) && Incomparable(LLM_API_BASE, q) && Incomparable(LLM_MODEL, q)
    && Incomparable(EMB_MODEL, q) && Incomparable(CLAIM_ENABLED, q)
  }

  /** Nothing else changes: every path off the five settings reads as before. */
  lemma UpdateFrame(user: UserConfig, t: Node, q: Path)
    requires WellShaped(t) && OffSettings(q)
    ensures Update(user, t).Ok?
    ensures Lookup(Update(user, t).value, q) == Lookup(t, q)
  {
    var t1, t2, t3, t4 := Stages(user, t);
    AssignFrame(user, t, EMB_API_BASE, API_BASE, q);
    AssignFrame(user, t1, LLM_API_BASE, API_BASE, q);
    AssignFrame(user, t2, LLM_MODEL, MODEL_ID, q);
    AssignFrame(user, t3, EMB_MODEL, EMBEDDING_MODEL_ID, q);
    SetPathFrame(t4, CLAIM_ENABLED, ClaimFlag(user), q);
  }

  /** A successful update leaves a tree of the same shape. */
  lemma UpdateKeepsShape(user: UserConfig, t: Node)
    requires Update(user, t).Ok?
    ensures WellShaped(Update(user, t).value)
  {
    UpdateFails(user, t);
    var t1, t2, t3, t4 := Stages(user, t);
    ContainersOffFields(CLAIM_ENABLED, EMB_LLM);
    ContainersOffFields(CLAIM_ENABLED, LLM);
    ContainersOffFields(CLAIM_ENABLED, CLAIM);
    SetPathMappingAt(t4, CLAIM_ENABLED, ClaimFlag(user), EMB_LLM);
    SetPathMappingAt(t4, CLAIM_ENABLED, ClaimFlag(user), LLM);
    SetPathMappingAt(t4, CLAIM_ENABLED, ClaimFlag(user), CLAIM);
  }

  /** A statement whose setting already holds what it would compute leaves the tree as it is. */
  lemma AssignSettled(user: UserConfig, t: Node, p: Path, key: string, v: Node)
    requires p != [] && MappingAt(t, p[..|p| - 1])
    requires Lookup(t, p) == Some(v) && Fallback(user, key, v) == v
    ensures Assign(user, t, p, key) == Ok(t)
  {
    CanSetIff(t, p);
    SetPathSame(t, p, v);
  }

  /** Running the reconciliation again with the same user entries changes nothing more. */
  lemma UpdateIdempotent(user: UserConfig, t: Node)
    requires Update(user, t).Ok?
    ensures Update(user, Update(user, t).value) == Update(user, t)
  {
    var r := Update(user, t).value;
    UpdateFails(user, t);
    UpdateFields(user, t);
    UpdateKeepsShape(user, t);
    UpdateSettledTree(user, r);
  }

  /** The setting at `p` is present and its statement would write back what is there. */
  predicate Settled(user: UserConfig, t: Node, p: Path, key: string) {
    Lookup(t, p).Some? && Fallback(user, key, Lookup(t, p).value) == Lookup(t, p).value
  }

  /** On a well-shaped tree whose five settings already hold what the statements compute, the update is the identity. */
  lemma UpdateSettledTree(user: UserConfig, r: Node)
    requires WellShaped(r)
    requires Settled(user, r, EMB_API_BASE, API_BASE) && Settled(user, r, LLM_API_BASE, API_BASE)
    requires Settled(user, r, LLM_MODEL, MODEL_ID) && Settled(user, r, EMB_MODEL, EMBEDDING_MODEL_ID)
    requires Lookup(r, CLAIM_ENABLED) == Some(ClaimFlag(user))
    ensures Update(user, r) == Ok(r)
  {
    var s1, s2, s3, s4 := Stages(user, r);
    AssignSettled(user, r, EMB_API_BASE, API_BASE, Lookup(r, EMB_API_BASE).value);
    AssignSettled(user, r, LLM_API_BASE, API_BASE, Lookup(r, LLM_API_BASE).value);
    AssignSettled(user, r, LLM_MODEL, MODEL_ID, Lookup(r, LLM_MODEL).value);
    AssignSettled(user, r, EMB_MODEL, EMBEDDING_MODEL_ID, Lookup(r, EMB_MODEL).value);
    SetPathSame(r, CLAIM_ENABLED, ClaimFlag(user));
  }

  /** The key that assigning at `p` adds to the mapping at `c`, if `c` is on its way. */
  function Added(c: Path, p: Path): set<string> {
    if IsPrefix(c, p) && |c| < |p| then {p[|c|]} else {}
  }

  /** The keys of the mapping at `c`. */
  function KeysAt(t: Node, c: Path): set<string>
    requires MappingAt(t, c)
  {
    Lookup(t, c).value.entries.Keys
  }

  /** One statement adds to a mapping's keys at most the next key of its setting. */
  lemma AssignKeys(user: UserConfig, t: Node, p: Path, key: string, c: Path)
    requires p != [] && MappingAt(t, p[..|p| - 1]) && MappingAt(t, c) && !IsPrefix(p, c)
    ensures MappingAt(Assign(user, t, p, key).value, c)
    ensures KeysAt(Assign(user, t, p, key).value, c) == KeysAt(t, c) + Added(c, p)
  {
    CanSetIff(t, p);
    SetPathKeys(t, p, Fallback(user, key, Field(t, p)), c);
  }

  /**
   * The mappings on the way to the settings gain exactly the settings'
   * keys and no others: with the frame and field lemmas this pins down
   * the whole updated tree.
   */
  lemma UpdateKeys(user: UserConfig, t: Node, c: Path)
    requires WellShaped(t) && MappingAt(t, c)
    requires !IsPrefix(EMB_API_BASE, c) && !IsPrefix(LLM_API_BASE, c) && !IsPrefix(LLM_MODEL, c)
    requires !IsPrefix(EMB_MODEL, c) && !IsPrefix(CLAIM_ENABLED, c)
    ensures Update(user, t).Ok? && MappingAt(Update(user, t).value, c)
    ensures KeysAt(Update(user, t).value, c)
         == KeysAt(t, c) + Added(c, EMB_API_BASE) + Added(c, LLM_API_BASE) + Added(c, LLM_MODEL)
            + Added(c, EMB_MODEL) + Added(c, CLAIM_ENABLED)
  {
    var t1, t2, t3, t4 := Stages(user, t);
    AssignKeys(user, t, EMB_API_BASE, API_BASE, c);
    AssignKeys(user, t1, LLM_API_BASE, API_BASE, c);
    AssignKeys(user, t2, LLM_MODEL, MODEL_ID, c);
    AssignKeys(user, t3, EMB_MODEL, EMBEDDING_MODEL_ID, c);
    SetPathKeys(t4, CLAIM_ENABLED, ClaimFlag(user), c);
  }

  /** An assignment adds to a mapping's keys at most the next key of its path. */
  lemma SetPathKeys(t: Node, p: Path, v: Node, c: Path)
    requires CanSet(t, p) && MappingAt(t, c) && !IsPrefix(p, c)
    ensures MappingAt(SetPath(t, p, v), c)
    ensures KeysAt(SetPath(t, p, v), c) == KeysAt(t, c) + Added(c, p)
  {
    if IsPrefix(c, p) {
      SetPathAbove(t, p, v, c);
    } else {
      SetPathFrame(t, p, v, c);
    }
  }
}
