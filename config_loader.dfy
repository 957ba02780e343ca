/** Loading and saving the YAML configuration file. YAML decoding and encoding
    are parameters of the model; decoding yields the keys the document sets. */
module ConfigLoader {
  import opened Wrappers
  import opened FileSystem
  import opened Config

  /** The keys a YAML document sets; None for a key it does not mention. */
  datatype ConfigPatch = ConfigPatch(
    pii: Option<bool>,
    extended: Option<bool>, wifiSSIDs: Option<bool>, hardwareIDs: Option<bool>,
    categoryTimeoutMs: Option<Int64>,
    encrypt: Option<bool>, sign: Option<bool>, redact: Option<seq<string>>, directory: Option<string>,
    llmEnabled: Option<bool>, maxTokens: Option<Int64>, temperature: Option<real>, modelPath: Option<string>,
    maxGoroutines: Option<Int64>, phase1TimeoutMs: Option<Int64>, phase2TimeoutMs: Option<Int64>)

  const EmptyPatch := ConfigPatch(None, None, None, None, None, None, None, None, None,
                                  None, None, None, None, None, None, None)

  /** yaml.Unmarshal into an existing Config: keys the document sets replace
      the field, every other field keeps its value. */
  function Overlay(c: Config, p: ConfigPatch): Config {
    Config(
      p.pii.GetOr(c.pii),
      CollectConfig(p.extended.GetOr(c.collect.extended), p.wifiSSIDs.GetOr(c.collect.wifiSSIDs),
                    p.hardwareIDs.GetOr(c.collect.hardwareIDs), p.categoryTimeoutMs.GetOr(c.collect.categoryTimeoutMs)),
      OutputConfig(p.encrypt.GetOr(c.output.encrypt), p.sign.GetOr(c.output.sign),
                   p.redact.GetOr(c.output.redact), p.directory.GetOr(c.output.directory)),
      LLMConfig(p.llmEnabled.GetOr(c.llm.enabled), p.maxTokens.GetOr(c.llm.maxTokens),
                p.temperature.GetOr(c.llm.temperature), p.modelPath.GetOr(c.llm.modelPath)),
      PerformanceConfig(p.maxGoroutines.GetOr(c.performance.maxGoroutines),
                        p.phase1TimeoutMs.GetOr(c.performance.phase1TimeoutMs),
                        p.phase2TimeoutMs.GetOr(c.performance.phase2TimeoutMs)))
  }

  lemma OverlayEmpty(c: Config)
    ensures Overlay(c, EmptyPatch) == c
  {
  }

  datatype LoadError =
    | ReadFailed
    | ParseFailed
    | Invalid(cause: ValidationError)

  /** Load: `file` is what os.ReadFile returned (None on a read error) and
      `unmarshal` the YAML decoder (None on a syntax error). */
  function Load(file: Option<bytes>, unmarshal: bytes -> Option<ConfigPatch>): (r: Result<Config, LoadError>)
    ensures r.Ok? ==> Validate(r.value).None?
    ensures file.None? ==> r == Err(ReadFailed)
    ensures file.Some? && unmarshal(file.value).None? ==> r == Err(ParseFailed)
    ensures file.Some? && unmarshal(file.value).Some? ==>
      var c := Overlay(Default(), unmarshal(file.value).value);
      (r.Ok? <==> Validate(c).None?) && (r.Ok? ==> r.value == c) && (r.Err? ==> r == Err(Invalid(Validate(c).value)))
  {
    if file.None? then Err(ReadFailed)
    else
      var patch := unmarshal(file.value);
      if patch.None? then Err(ParseFailed)
      else
        var cfg := Overlay(Default(), patch.value);
        var v := Validate(cfg);
        if v.Some? then Err(Invalid(v.value)) else Ok(cfg)
  }

  /** A document that sets nothing loads as the defaults. */
  lemma LoadEmptyDocumentIsDefault(data: bytes, unmarshal: bytes -> Option<ConfigPatch>)
    requires unmarshal(data) == Some(EmptyPatch)
    ensures Load(Some(data), unmarshal) == Ok(Default())
  {
    OverlayEmpty(Default());
    DefaultIsValid();
  }

  /** A document setting only `pii: false` and `performance.max_goroutines: 4`
      keeps every other default. */
  lemma LoadKeepsUnsetDefaults(data: bytes, unmarshal: bytes -> Option<ConfigPatch>)
    requires unmarshal(data) == Some(EmptyPatch.(pii := Some(false), maxGoroutines := Some(4)))
    ensures Load(Some(data), unmarshal) ==
      Ok(Default().(pii := false, performance := Default().performance.(maxGoroutines := 4)))
  {
  }

  /** LoadOrDefault. */
  function LoadOrDefault(file: Option<bytes>, unmarshal: bytes -> Option<ConfigPatch>): (c: Config)
    ensures Validate(c).None?
    ensures Load(file, unmarshal).Err? ==> c == Default()
    ensures Load(file, unmarshal).Ok? ==> c == Load(file, unmarshal).value
  {
    DefaultIsValid();
    match Load(file, unmarshal)
    case Ok(cfg) => cfg
    case Err(_) => Default()
  }

  datatype SaveError =
    | CannotSaveInvalid(cause: ValidationError)
    | MarshalFailed
    | WriteFailed(step: SaveStep)

  /** Save: validate, encode, then write `path.tmp` with mode 0644 and rename
      it over `path`. */
  method Save(disk: Disk, cfg: Config, path: string, marshal: Config -> Option<bytes>, faults: Faults)
    returns (r: Outcome<SaveError>)
    requires disk.Valid()
    modifies disk
    ensures disk.Valid() && disk.dirs == old(disk.dirs)
    ensures Validate(cfg).Some? ==> r == Fail(CannotSaveInvalid(Validate(cfg).value)) && unchanged(disk)
    ensures Validate(cfg).None? && marshal(cfg).None? ==> r == Fail(MarshalFailed) && unchanged(disk)
    ensures r == Pass <==> Validate(cfg).None? && marshal(cfg).Some? && Saves(old(disk.dirs), path, faults)
    ensures r == Pass ==>
              disk.files == (old(disk.files) - {TmpPath(path)})[path := File(marshal(cfg).value,
                                                                      PermAfterOpen(old(disk.files), TmpPath(path), Perm0644))]
    ensures r != Pass ==> Lookup(disk.files, path) == Lookup(old(disk.files), path)
    ensures r == Fail(WriteFailed(TempRenameFailed)) && !faults.remove ==> TmpPath(path) !in disk.files
    ensures forall p :: p != path && p != TmpPath(path) ==> Lookup(disk.files, p) == Lookup(old(disk.files), p)
  {
    var v := Validate(cfg);
    if v.Some? {
      return Fail(CannotSaveInvalid(v.value));
    }
    var data := marshal(cfg);
    if data.None? {
      return Fail(MarshalFailed);
    }
    var step := SaveViaTemp(disk, path, data.value, Perm0644, faults);
    return if step.Pass? then Pass else Fail(WriteFailed(step.error));
  }

  /** What Save wrote loads back as the saved configuration, provided the YAML
      encoder and decoder agree on it. */
  lemma SavedConfigLoadsBack(cfg: Config, data: bytes, unmarshal: bytes -> Option<ConfigPatch>)
    requires Validate(cfg).None?
    requires unmarshal(data).Some? && Overlay(Default(), unmarshal(data).value) == cfg
    ensures Load(Some(data), unmarshal) == Ok(cfg)
  {
  }
}
