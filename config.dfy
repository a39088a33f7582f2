/**
 * stlr/config.py: the settings records and their attrs validators. A record is built from the
 * values given for its fields (a field left out takes its default); the validators run field by
 * field in declaration order, and the first that fails decides the exception: `in_`, `ge` and
 * `gt` raise ValueError, `instance_of` raises TypeError.
 */
module Config {
  import opened Wrappers

  /** A value as the YAML loader hands it over. */
  datatype Value = Null | Bool(b: bool) | Int(i: int) | Float(f: real) | Str(s: string)

  const WhisperModelNames: set<string> :=
    {"base", "large", "large-v1", "large-v2", "tiny", "small", "medium", "tiny.en", "small.en", "medium.en"}
  const WhisperLibraries: set<string> := {"openai-whisper", "whisper-timestamped", "stable-whisper"}
  const ExportFormats: set<string> := {"json", "audacity", "audition"}
  const ReconciliationModes: set<string> := {"simple", "assisted", "always-assisted"}
  const AlignmentModes: set<string> := {"fixed", "word"}
  const ThemeNames: set<string> :=
    {"cosmo", "flatly", "journal", "litera", "lumen", "minty", "pulse", "sandstone", "united", "yeti",
     "morph", "simplex", "cerculean", "solar", "superhero", "darkly", "cyborg", "vapor"}

  /** `validators.in_(names)`: only a string of the set is a member. */
  predicate In(v: Value, names: set<string>) {
    v.Str? && v.s in names
  }

  /** `validators.instance_of(int)`: Python's bool is a subclass of int. */
  predicate IsInt(v: Value) {
    v.Int? || v.Bool?
  }

  function IntOf(v: Value): int
    requires IsInt(v)
  {
    if v.Int? then v.i else if v.b then 1 else 0
  }

  // ---------------------------------------------------------------------------------------------
  // WhisperModel, ÉtoileSettings, HoshiSettings, UIThemes

  datatype WhisperModel = WhisperModel(name: string, device: Value, library: string)

  /** `WhisperModel(name, device, library)`; `library` defaults to "openai-whisper". */
  function MakeWhisperModel(name: Value, device: Value, library: Option<Value>): (r: Result<WhisperModel>)
    ensures r.Ok? <==> In(name, WhisperModelNames) && In(library.GetOr(Str("openai-whisper")), WhisperLibraries)
    ensures r.Err? ==> r.error == ValueError
    ensures r.Ok? ==> Str(r.value.name) == name && r.value.device == device
    ensures r.Ok? ==> Str(r.value.library) == library.GetOr(Str("openai-whisper"))
    ensures r.Ok? ==> r.value.name in WhisperModelNames && r.value.library in WhisperLibraries
  {
    var lib := library.GetOr(Str("openai-whisper"));
    if !In(name, WhisperModelNames) then Err(ValueError)
    else if !In(lib, WhisperLibraries) then Err(ValueError)
    else Ok(WhisperModel(name.s, device, lib.s))
  }

  datatype EtoileSettings = EtoileSettings(exportFormat: string)

  /** `ÉtoileSettings(export_format)`, by default "json". */
  function MakeEtoileSettings(exportFormat: Option<Value>): (r: Result<EtoileSettings>)
    ensures r.Ok? <==> In(exportFormat.GetOr(Str("json")), ExportFormats)
    ensures r.Err? ==> r.error == ValueError
    ensures r.Ok? ==> r.value.exportFormat in ExportFormats && Str(r.value.exportFormat) == exportFormat.GetOr(Str("json"))
  {
    var v := exportFormat.GetOr(Str("json"));
    if In(v, ExportFormats) then Ok(EtoileSettings(v.s)) else Err(ValueError)
  }

  datatype HoshiSettings = HoshiSettings(reconciliation: string)

  /** `HoshiSettings(reconciliation)`, by default "assisted". */
  function MakeHoshiSettings(reconciliation: Option<Value>): (r: Result<HoshiSettings>)
    ensures r.Ok? <==> In(reconciliation.GetOr(Str("assisted")), ReconciliationModes)
    ensures r.Err? ==> r.error == ValueError
    ensures r.Ok? ==> r.value.reconciliation in ReconciliationModes
    ensures r.Ok? ==> Str(r.value.reconciliation) == reconciliation.GetOr(Str("assisted"))
  {
    var v := reconciliation.GetOr(Str("assisted"));
    if In(v, ReconciliationModes) then Ok(HoshiSettings(v.s)) else Err(ValueError)
  }

  /** A validated reconciliation mode is never "naive" (nor "naïve"). */
  lemma ValidatedModeIsNotNaive(reconciliation: Option<Value>)
    requires MakeHoshiSettings(reconciliation).Ok?
    ensures MakeHoshiSettings(reconciliation).value.reconciliation !in {"naive", "naïve"}
  {
  }

  datatype UIThemes = UIThemes(stlr: string, astral: string, hoshi: string)

  /** `UIThemes(stlr, astral, hoshi)`: three theme names, none defaulted. */
  function MakeUIThemes(stlr: Value, astral: Value, hoshi: Value): (r: Result<UIThemes>)
    ensures r.Ok? <==> In(stlr, ThemeNames) && In(astral, ThemeNames) && In(hoshi, ThemeNames)
    ensures r.Err? ==> r.error == ValueError
    ensures r.Ok? ==> [Str(r.value.stlr), Str(r.value.astral), Str(r.value.hoshi)] == [stlr, astral, hoshi]
  {
    if In(stlr, ThemeNames) && In(astral, ThemeNames) && In(hoshi, ThemeNames)
    then Ok(UIThemes(stlr.s, astral.s, hoshi.s))
    else Err(ValueError)
  }

  // ---------------------------------------------------------------------------------------------
  // AstralSettings

  datatype AstralSettings = AstralSettings(initialIndent: int, additionalIndent: int, alignment: string, frameLength: real)

  /** The first validation failure of an indent: not an int, then negative. */
  function IndentError(v: Value): (r: Option<Exception>)
    ensures r.None? <==> IsInt(v) && IntOf(v) >= 0
    ensures r == Some(TypeError) <==> !IsInt(v)
  {
    if !IsInt(v) then Some(TypeError) else if IntOf(v) < 0 then Some(ValueError) else None
  }

  /** The first validation failure of a frame length: not a float (an int is not), then not positive. */
  function FrameLengthError(v: Value): (r: Option<Exception>)
    ensures r.None? <==> v.Float? && v.f > 0.0
    ensures r == Some(TypeError) <==> !v.Float?
  {
    if !v.Float? then Some(TypeError) else if v.f <= 0.0 then Some(ValueError) else None
  }

  /**
   * `AstralSettings(...)`: indents default to 4, alignment to "fixed", the frame length to 0.2;
   * the fields are validated in declaration order and the first failure decides the exception.
   */
  function MakeAstralSettings(initialIndent: Option<Value>, additionalIndent: Option<Value>,
                              alignment: Option<Value>, frameLength: Option<Value>): (r: Result<AstralSettings>)
    ensures var i, a, m, f := initialIndent.GetOr(Int(4)), additionalIndent.GetOr(Int(4)),
                              alignment.GetOr(Str("fixed")), frameLength.GetOr(Float(0.2));
      r.Ok? <==> IndentError(i).None? && IndentError(a).None? && In(m, AlignmentModes) && FrameLengthError(f).None?
    ensures var i, a, m, f := initialIndent.GetOr(Int(4)), additionalIndent.GetOr(Int(4)),
                              alignment.GetOr(Str("fixed")), frameLength.GetOr(Float(0.2));
      && (IndentError(i).Some? ==> r == Err(IndentError(i).value))
      && (IndentError(i).None? && IndentError(a).Some? ==> r == Err(IndentError(a).value))
      && (IndentError(i).None? && IndentError(a).None? && !In(m, AlignmentModes) ==> r == Err(ValueError))
      && (IndentError(i).None? && IndentError(a).None? && In(m, AlignmentModes) && FrameLengthError(f).Some? ==>
            r == Err(FrameLengthError(f).value))
      && (r.Ok? ==> IsInt(i) && IsInt(a) && m.Str? && f.Float?
                    && r.value == AstralSettings(IntOf(i), IntOf(a), m.s, f.f))
    ensures r.Ok? ==> r.value.initialIndent >= 0 && r.value.additionalIndent >= 0
    ensures r.Ok? ==> r.value.alignment in AlignmentModes && r.value.frameLength > 0.0
  {
    var i, a, m, f := initialIndent.GetOr(Int(4)), additionalIndent.GetOr(Int(4)),
                      alignment.GetOr(Str("fixed")), frameLength.GetOr(Float(0.2));
    if IndentError(i).Some? then Err(IndentError(i).value)
    else if IndentError(a).Some? then Err(IndentError(a).value)
    else if !In(m, AlignmentModes) then Err(ValueError)
    else if FrameLengthError(f).Some? then Err(FrameLengthError(f).value)
    else Ok(AstralSettings(IntOf(i), IntOf(a), m.s, f.f))
  }

  /** Every record that has defaults is valid with all of them. */
  lemma DefaultsAreValid()
    ensures MakeAstralSettings(None, None, None, None) == Ok(AstralSettings(4, 4, "fixed", 0.2))
    ensures MakeHoshiSettings(None) == Ok(HoshiSettings("assisted"))
    ensures MakeEtoileSettings(None) == Ok(EtoileSettings("json"))
    ensures MakeWhisperModel(Str("base"), Null, None) == Ok(WhisperModel("base", Null, "openai-whisper"))
  {
  }

  // ---------------------------------------------------------------------------------------------
  // the whisper settings split of Config.load

  /**
   * `Config.load` on `ws = data["whisper_settings"]`: `ws.pop("model")`, `ws.pop("device")` and
   * `ws.pop("library")` in that order (each raising KeyError on a missing key, after the earlier
   * pops have happened), then `WhisperModel(...)` on the popped values; `ws` itself is what the
   * configuration keeps as its `whisper` settings.
   */
  function WhisperSplit(ws: map<string, Value>): (r: (Result<WhisperModel>, map<string, Value>))
    ensures r.0.Err? && r.0.error == KeyError <==> !("model" in ws && "device" in ws && "library" in ws)
    ensures r.1.Keys <= ws.Keys && forall k :: k in r.1 ==> r.1[k] == ws[k]
    ensures "model" !in r.1
    ensures r.0.Ok? ==> r.1.Keys == ws.Keys - {"model", "device", "library"}
    ensures r.0.Ok? ==> Str(r.0.value.name) == ws["model"] && r.0.value.device == ws["device"]
                        && Str(r.0.value.library) == ws["library"]
  {
    if "model" !in ws then (Err(KeyError), ws)
    else if "device" !in ws then (Err(KeyError), ws - {"model"})
    else if "library" !in ws then (Err(KeyError), ws - {"model", "device"})
    else (MakeWhisperModel(ws["model"], ws["device"], Some(ws["library"])), ws - {"model", "device", "library"})
  }

  /** A dictionary the code mutates in place. */
  class Settings {
    var entries: map<string, Value>

    constructor (entries: map<string, Value>)
      ensures this.entries == entries
    {
      this.entries := entries;
    }

    /** `d.pop(key)`: removes and returns the value, or raises KeyError leaving `d` as it was. */
    method Pop(key: string) returns (r: Result<Value>)
      modifies this
      ensures key in old(entries) ==> r == Ok(old(entries)[key]) && entries == old(entries) - {key}
      ensures key !in old(entries) ==> r == Err(KeyError) && entries == old(entries)
    {
      if key in entries {
        r := Ok(entries[key]);
        entries := entries - {key};
      } else {
        r := Err(KeyError);
      }
    }
  }

  /** The pops and the `WhisperModel` of `Config.load`, on the settings dictionary itself. */
  method SplitWhisperSettings(ws: Settings) returns (r: Result<WhisperModel>)
    modifies ws
    ensures (r, ws.entries) == WhisperSplit(old(ws.entries))
  {
    var model := ws.Pop("model");
    if model.Err? {
      return Err(KeyError);
    }
    var device := ws.Pop("device");
    if device.Err? {
      return Err(KeyError);
    }
    assert ws.entries == old(ws.entries) - {"model", "device"};
    var library := ws.Pop("library");
    if library.Err? {
      return Err(KeyError);
    }
    assert ws.entries == old(ws.entries) - {"model", "device", "library"};
    r := MakeWhisperModel(model.value, device.value, Some(library.value));
  }
}
