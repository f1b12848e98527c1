/**
 * The settings of the converter window: the values of the parameter widgets, the style-removal
 * check box, the selected model and the device. `settings.json` is treated as a store that gives
 * back exactly the record written to it, so the record here is the parsed JSON object.
 */
module SettingsStore {

  import opened Wrappers
  import opened Inference

  /** The model registry: combo-box label to model repository. Insertion order puts 0.5B first. */
  const Models: map<string, string> :=
    map["0.5B Model" := "jinaai/reader-lm-0.5b", "1.5B Model" := "jinaai/reader-lm-1.5b"]
  const DefaultModel: string := "0.5B Model"
  const DefaultDevice: string := "cpu"

  /** The `setRange` bounds and the `setValue` defaults of the parameter widgets. */
  const MaxNewTokensMin: int := 1
  const MaxNewTokensMax: int := 2048
  const MaxNewTokensDefault: int := 1024
  const TemperatureMin: real := 0.1
  const TemperatureMax: real := 1.0
  const TemperatureDefault: real := 0.7
  const DoSampleDefault: bool := true
  const TopPMin: real := 0.1
  const TopPMax: real := 1.0
  const TopPDefault: real := 0.95
  const RepetitionPenaltyMin: real := 1.0
  const RepetitionPenaltyMax: real := 2.0
  const RepetitionPenaltyDefault: real := 1.1
  const NumReturnSequencesMin: int := 1
  const NumReturnSequencesMax: int := 5
  const NumReturnSequencesDefault: int := 1
  const RemoveStylesDefault: bool := false

  /** What the widgets show; `gpuChecked` is the state of the GPU radio button. */
  datatype Settings = Settings(
    maxNewTokens: int,
    temperature: real,
    doSample: bool,
    topP: real,
    repetitionPenalty: real,
    numReturnSequences: int,
    removeStyles: bool,
    modelName: string,
    device: string,
    gpuChecked: bool)

  /** The saved JSON object: one optional entry per key. */
  datatype Record = Record(
    maxNewTokens: Option<int>,
    temperature: Option<real>,
    doSample: Option<bool>,
    topP: Option<real>,
    repetitionPenalty: Option<real>,
    numReturnSequences: Option<int>,
    removeStyles: Option<bool>,
    model: Option<string>,
    device: Option<string>)

  const EmptyRecord: Record := Record(None, None, None, None, None, None, None, None, None)

  /** A spin box bounds a value set into it to its range. */
  function ClampInt(v: int, lo: int, hi: int): (r: int)
    requires lo <= hi
    ensures lo <= r <= hi
    ensures lo <= v <= hi ==> r == v
    ensures v < lo ==> r == lo
    ensures hi < v ==> r == hi
  {
    if v < lo then lo else if hi < v then hi else v
  }

  /** A double spin box bounds a value the same way (its decimal rounding is not modelled). */
  function ClampReal(v: real, lo: real, hi: real): (r: real)
    requires lo <= hi
    ensures lo <= r <= hi
    ensures lo <= v <= hi ==> r == v
    ensures v < lo ==> r == lo
    ensures hi < v ==> r == hi
  {
    if v < lo then lo else if hi < v then hi else v
  }

  /** What the widgets can show: every value within its range, a registered model, and the
      GPU radio checked exactly when the device is not the CPU. */
  predicate InRange(s: Settings) {
    MaxNewTokensMin <= s.maxNewTokens <= MaxNewTokensMax &&
    TemperatureMin <= s.temperature <= TemperatureMax &&
    TopPMin <= s.topP <= TopPMax &&
    RepetitionPenaltyMin <= s.repetitionPenalty <= RepetitionPenaltyMax &&
    NumReturnSequencesMin <= s.numReturnSequences <= NumReturnSequencesMax &&
    s.modelName in Models &&
    s.gpuChecked == (s.device != "cpu")
  }

  /** The values the widgets are created with, which `resetSettings` restores. */
  const Defaults: Settings := Settings(
    MaxNewTokensDefault, TemperatureDefault, DoSampleDefault, TopPDefault,
    RepetitionPenaltyDefault, NumReturnSequencesDefault, RemoveStylesDefault,
    DefaultModel, DefaultDevice, false)

  /** The nine-key object `saveSettings` writes. */
  function SaveRecord(s: Settings): (r: Record)
    ensures r.maxNewTokens.Some? && r.temperature.Some? && r.doSample.Some? && r.topP.Some?
    ensures r.repetitionPenalty.Some? && r.numReturnSequences.Some? && r.removeStyles.Some?
    ensures r.model.Some? && r.device.Some?
    ensures InRange(s) ==> forall before :: Load(before, r) == s
  {
    Record(Some(s.maxNewTokens), Some(s.temperature), Some(s.doSample), Some(s.topP),
           Some(s.repetitionPenalty), Some(s.numReturnSequences), Some(s.removeStyles),
           Some(s.modelName), Some(s.device))
  }

  /** Selecting a label in the (non-editable) model combo box: unknown labels change nothing. */
  function SelectModel(current: string, text: string): (r: string)
    ensures r == text || r == current
    ensures text in Models ==> r == text
    ensures r in Models <==> text in Models || current in Models
  {
    if text in Models then text else current
  }

  /**
   * What `loadSettings` leaves in the widgets when it reads record `r` on top of `s`: each key
   * falls back to its own default, every spin box bounds what it is given, and the device
   * decides which radio button is checked.
   */
  function Load(s: Settings, r: Record): (t: Settings)
    ensures s.modelName in Models ==> InRange(t)
  {
    var device := r.device.GetOr(DefaultDevice);
    Settings(
      ClampInt(r.maxNewTokens.GetOr(MaxNewTokensDefault), MaxNewTokensMin, MaxNewTokensMax),
      ClampReal(r.temperature.GetOr(TemperatureDefault), TemperatureMin, TemperatureMax),
      r.doSample.GetOr(DoSampleDefault),
      ClampReal(r.topP.GetOr(TopPDefault), TopPMin, TopPMax),
      ClampReal(r.repetitionPenalty.GetOr(RepetitionPenaltyDefault), RepetitionPenaltyMin, RepetitionPenaltyMax),
      ClampInt(r.numReturnSequences.GetOr(NumReturnSequencesDefault), NumReturnSequencesMin, NumReturnSequencesMax),
      r.removeStyles.GetOr(RemoveStylesDefault),
      SelectModel(s.modelName, r.model.GetOr(DefaultModel)),
      device,
      device != "cpu")
  }

  /** Every generation control within its widget's range. */
  predicate ParamsInRange(p: Params) {
    MaxNewTokensMin <= p.maxNewTokens <= MaxNewTokensMax &&
    TemperatureMin <= p.temperature <= TemperatureMax &&
    TopPMin <= p.topP <= TopPMax &&
    RepetitionPenaltyMin <= p.repetitionPenalty <= RepetitionPenaltyMax &&
    NumReturnSequencesMin <= p.numReturnSequences <= NumReturnSequencesMax
  }

  /** The generation controls a conversion reads from the widgets: in range when they are. */
  function ParamsOf(s: Settings): (p: Params)
    ensures InRange(s) ==> ParamsInRange(p)
    ensures p.maxNewTokens == s.maxNewTokens && p.temperature == s.temperature
    ensures p.doSample == s.doSample && p.topP == s.topP
    ensures p.repetitionPenalty == s.repetitionPenalty && p.numReturnSequences == s.numReturnSequences
  {
    Params(s.maxNewTokens, s.temperature, s.doSample, s.topP, s.repetitionPenalty, s.numReturnSequences)
  }

  /** The defaults are themselves within range. */
  lemma DefaultsInRange()
    ensures InRange(Defaults)
  {
  }

  /** Loading what was saved from widgets in range restores every field, whatever was shown before. */
  lemma LoadOfSave(s: Settings, before: Settings)
    requires InRange(s)
    ensures Load(before, SaveRecord(s)) == s
  {
  }

  /** Loading an empty object gives the defaults, the same state `resetSettings` produces. */
  lemma LoadOfEmpty(before: Settings)
    ensures Load(before, EmptyRecord) == Defaults
  {
  }

  /** Saving is idempotent: saving, loading and saving again writes the same object. */
  lemma SaveLoadSave(s: Settings, before: Settings)
    requires InRange(s)
    ensures SaveRecord(Load(before, SaveRecord(s))) == SaveRecord(s)
  {
    LoadOfSave(s, before);
  }

  /**
   * Keys are read independently: two records that agree on one key give the same value for
   * that key's widget, whatever the other keys hold (the model label also depends on the label
   * shown before, when the stored one is unknown).
   */
  lemma LoadKeyByKey(s1: Settings, s2: Settings, r1: Record, r2: Record)
    ensures r1.maxNewTokens == r2.maxNewTokens ==> Load(s1, r1).maxNewTokens == Load(s2, r2).maxNewTokens
    ensures r1.temperature == r2.temperature ==> Load(s1, r1).temperature == Load(s2, r2).temperature
    ensures r1.doSample == r2.doSample ==> Load(s1, r1).doSample == Load(s2, r2).doSample
    ensures r1.topP == r2.topP ==> Load(s1, r1).topP == Load(s2, r2).topP
    ensures r1.repetitionPenalty == r2.repetitionPenalty ==> Load(s1, r1).repetitionPenalty == Load(s2, r2).repetitionPenalty
    ensures r1.numReturnSequences == r2.numReturnSequences ==> Load(s1, r1).numReturnSequences == Load(s2, r2).numReturnSequences
    ensures r1.removeStyles == r2.removeStyles ==> Load(s1, r1).removeStyles == Load(s2, r2).removeStyles
    ensures r1.model == r2.model && s1.modelName == s2.modelName ==> Load(s1, r1).modelName == Load(s2, r2).modelName
    ensures r1.device == r2.device ==> Load(s1, r1).device == Load(s2, r2).device && Load(s1, r1).gpuChecked == Load(s2, r2).gpuChecked
  {
  }

  /** An absent key gives that widget its default. */
  lemma LoadAbsentKeys(s: Settings, r: Record)
    ensures r.maxNewTokens.None? ==> Load(s, r).maxNewTokens == MaxNewTokensDefault
    ensures r.temperature.None? ==> Load(s, r).temperature == TemperatureDefault
    ensures r.doSample.None? ==> Load(s, r).doSample == DoSampleDefault
    ensures r.topP.None? ==> Load(s, r).topP == TopPDefault
    ensures r.repetitionPenalty.None? ==> Load(s, r).repetitionPenalty == RepetitionPenaltyDefault
    ensures r.numReturnSequences.None? ==> Load(s, r).numReturnSequences == NumReturnSequencesDefault
    ensures r.removeStyles.None? ==> Load(s, r).removeStyles == RemoveStylesDefault
    ensures r.model.None? ==> Load(s, r).modelName == DefaultModel
    ensures r.device.None? ==> Load(s, r).device == DefaultDevice && !Load(s, r).gpuChecked
  {
  }
}
