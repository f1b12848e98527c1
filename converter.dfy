/**
 * The converter window's conversion lifecycle and settings handlers. Only the state the widgets
 * expose is kept: which buttons are enabled, whether the progress bar is shown and its value,
 * whether the window's current progress timer runs, the output text, the job handed to the last
 * worker thread, and the values of the settings widgets.
 */
module Converter {

  import opened Wrappers
  import opened Inference
  import opened SettingsStore

  /** The lifecycle part of the window state, for stating in one place what an event changes. */
  datatype Controls = Controls(
    convertEnabled: bool,
    saveEnabled: bool,
    copyEnabled: bool,
    previewEnabled: bool,
    progressVisible: bool,
    progressValue: int,
    timerRunning: bool,
    staleTimers: nat,
    outputText: string,
    thread: Option<Job>)

  /** The window as built by `initUI`: only Convert enabled, bar hidden at Qt's unset value -1. */
  const InitialControls: Controls := Controls(true, false, false, false, false, -1, false, 0, "", None)

  /** The text `convertHTML` converts: the manual input on the first tab, else the fetched HTML. */
  function InputText(tab: int, manualText: string, urlText: string): (r: string)
    ensures tab == 0 ==> r == manualText
    ensures tab != 0 ==> r == urlText
  {
    if tab == 0 then manualText else urlText
  }

  class ConverterWindow {
    var convertEnabled: bool
    var saveEnabled: bool
    var copyEnabled: bool
    var previewEnabled: bool
    var progressVisible: bool
    /** `progressBar.value()`; a fresh QProgressBar reports -1 until a value is set. */
    var progressValue: int
    /** Whether `self.timer`, the timer of the latest submission, is running. */
    var timerRunning: bool
    /**
     * Timers of earlier submissions that were still running when a new one replaced
     * `self.timer`. Nothing ever stops them; they keep calling `updateProgressBar`.
     */
    var staleTimers: nat
    var outputText: string
    /** The job of the latest worker thread, if one was started. */
    var thread: Option<Job>

    /** The settings widgets: the parameter spin boxes, the check boxes, the model combo box,
        `self.device` and the hardware radio buttons. */
    var settings: Settings

    function Lifecycle(): Controls
      reads this
    {
      Controls(convertEnabled, saveEnabled, copyEnabled, previewEnabled, progressVisible,
               progressValue, timerRunning, staleTimers, outputText, thread)
    }

    /**
     * The window invariant: the progress value stays within -1..99, and is a real value from
     * 0 once a job was submitted; before that no timer exists; the settings widgets hold
     * values in range, and so does the job handed to the worker.
     */
    ghost predicate Valid()
      reads this
    {
      -1 <= progressValue <= 99 &&
      (thread.None? ==> progressValue == -1 && !timerRunning && staleTimers == 0) &&
      (thread.Some? ==> 0 <= progressValue && ParamsInRange(thread.value.params)) &&
      InRange(settings)
    }

    /** `__init__`: build the widgets with their defaults, then `loadSettings`. */
    constructor (stored: Option<Record>)
      ensures Valid()
      ensures Lifecycle() == InitialControls
      ensures settings == match stored case None => Defaults case Some(r) => Load(Defaults, r)
    {
      convertEnabled, saveEnabled, copyEnabled, previewEnabled := true, false, false, false;
      progressVisible, progressValue, timerRunning, staleTimers := false, -1, false, 0;
      outputText, thread := "", None;
      settings := Defaults;
      new;
      LoadSettings(stored);
    }

    /**
     * `convertHTML`. An empty input only warns. Otherwise the Convert button is disabled, the
     * bar is shown at 0, a worker thread gets the job, and a new timer is started. The previous
     * timer is not stopped: if it was running it goes on running as a stale timer.
     */
    method Submit(tab: int, manualText: string, urlText: string, removeStylesFrom: string -> string)
      requires Valid()
      modifies this
      ensures Valid()
      ensures settings == old(settings)
      ensures InputText(tab, manualText, urlText) == "" ==> Lifecycle() == old(Lifecycle())
      ensures var html := InputText(tab, manualText, urlText);
        html != "" ==>
        Lifecycle() == old(Lifecycle()).(
          convertEnabled := false,
          progressVisible := true,
          progressValue := 0,
          timerRunning := true,
          staleTimers := old(staleTimers) + if old(timerRunning) then 1 else 0,
          thread := Some(Job(if settings.removeStyles then removeStylesFrom(html) else html,
                             Models[settings.modelName], settings.device, ParamsOf(settings))))
    {
      var html := InputText(tab, manualText, urlText);
      if html == "" {
        return;
      }
      if settings.removeStyles {
        html := removeStylesFrom(html);
      }
      convertEnabled := false;
      progressVisible := true;
      progressValue := 0;
      thread := Some(Job(html, Models[settings.modelName], settings.device, ParamsOf(settings)));
      if timerRunning {
        staleTimers := staleTimers + 1;
      }
      timerRunning := true;
    }

    /**
     * `updateProgressBar`, called by any running timer every 100 ms: below 99 the value goes up
     * by one; at 99 it stays and the current timer is stopped (stale timers are not).
     */
    method Tick()
      requires Valid()
      requires timerRunning || staleTimers > 0
      modifies this
      ensures Valid()
      ensures settings == old(settings)
      ensures old(progressValue) < 99 ==> Lifecycle() == old(Lifecycle()).(progressValue := old(progressValue) + 1)
      ensures old(progressValue) >= 99 ==> Lifecycle() == old(Lifecycle()).(timerRunning := false)
      ensures old(progressValue) <= progressValue <= 99
    {
      var current := progressValue;
      if current < 99 {
        progressValue := current + 1;
      } else {
        timerRunning := false;
      }
    }

    /**
     * `onConversionFinished`: show the answer, enable Convert and the output actions, hide the
     * bar. The timer is left as it is.
     */
    method OnConversionFinished(markdown: string)
      requires Valid() && thread.Some?
      modifies this
      ensures Valid()
      ensures settings == old(settings)
      ensures Lifecycle() == old(Lifecycle()).(
        outputText := markdown,
        convertEnabled := true,
        saveEnabled := true,
        copyEnabled := true,
        previewEnabled := true,
        progressVisible := false)
    {
      outputText := markdown;
      convertEnabled := true;
      saveEnabled := true;
      copyEnabled := true;
      previewEnabled := true;
      progressVisible := false;
    }

    /**
     * `onError`: enable Convert and hide the bar. The output text, the output actions and the
     * timer are left as they are.
     */
    method OnError(message: string)
      requires Valid() && thread.Some?
      modifies this
      ensures Valid()
      ensures settings == old(settings)
      ensures Lifecycle() == old(Lifecycle()).(convertEnabled := true, progressVisible := false)
    {
      convertEnabled := true;
      progressVisible := false;
    }

    /** The worker's two signals, connected to the two handlers. */
    method Deliver(outcome: Outcome)
      requires Valid() && thread.Some?
      modifies this
      ensures Valid()
      ensures settings == old(settings)
      ensures outcome.Finished? ==> Lifecycle() == old(Lifecycle()).(
        outputText := outcome.markdown, convertEnabled := true, saveEnabled := true,
        copyEnabled := true, previewEnabled := true, progressVisible := false)
      ensures outcome.Error? ==> Lifecycle() == old(Lifecycle()).(convertEnabled := true, progressVisible := false)
    {
      match outcome
      case Finished(markdown) => OnConversionFinished(markdown);
      case Error(message) => OnError(message);
    }

    /**
     * `saveSettings`: the nine-key object written to `settings.json`. Reading it back restores
     * every widget, whatever they showed in between.
     */
    method SaveSettings() returns (r: Record)
      requires Valid()
      ensures r == SaveRecord(settings)
      ensures forall before :: Load(before, r) == settings
    {
      r := SaveRecord(settings);
    }

    /**
     * `loadSettings`: with no settings file nothing changes; otherwise every widget is set from
     * its key or that key's default.
     */
    method LoadSettings(stored: Option<Record>)
      requires Valid()
      modifies this
      ensures Valid()
      ensures Lifecycle() == old(Lifecycle())
      ensures settings == match stored case None => old(settings) case Some(r) => Load(old(settings), r)
    {
      if stored.None? {
        return;
      }
      var r := stored.value;
      var s := settings;
      s := s.(maxNewTokens := ClampInt(r.maxNewTokens.GetOr(MaxNewTokensDefault), MaxNewTokensMin, MaxNewTokensMax));
      s := s.(temperature := ClampReal(r.temperature.GetOr(TemperatureDefault), TemperatureMin, TemperatureMax));
      s := s.(doSample := r.doSample.GetOr(DoSampleDefault));
      s := s.(topP := ClampReal(r.topP.GetOr(TopPDefault), TopPMin, TopPMax));
      s := s.(repetitionPenalty := ClampReal(r.repetitionPenalty.GetOr(RepetitionPenaltyDefault),
                                             RepetitionPenaltyMin, RepetitionPenaltyMax));
      s := s.(numReturnSequences := ClampInt(r.numReturnSequences.GetOr(NumReturnSequencesDefault),
                                              NumReturnSequencesMin, NumReturnSequencesMax));
      s := s.(removeStyles := r.removeStyles.GetOr(RemoveStylesDefault));
      s := s.(modelName := SelectModel(s.modelName, r.model.GetOr(DefaultModel)));
      s := s.(device := r.device.GetOr(DefaultDevice));
      s := s.(gpuChecked := s.device != "cpu");
      settings := s;
    }

    /** `resetSettings`: the widgets' creation values, the same as loading an empty object. */
    method ResetSettings()
      requires Valid()
      modifies this
      ensures Valid()
      ensures Lifecycle() == old(Lifecycle())
      ensures settings == Defaults
      ensures settings == Load(old(settings), EmptyRecord)
    {
      var s := settings;
      s := s.(maxNewTokens := MaxNewTokensDefault);
      s := s.(temperature := TemperatureDefault);
      s := s.(doSample := DoSampleDefault);
      s := s.(topP := TopPDefault);
      s := s.(repetitionPenalty := RepetitionPenaltyDefault);
      s := s.(numReturnSequences := NumReturnSequencesDefault);
      s := s.(removeStyles := RemoveStylesDefault);
      s := s.(modelName := SelectModel(s.modelName, DefaultModel));
      s := s.(gpuChecked := false);
      s := s.(device := DefaultDevice);
      settings := s;
      LoadOfEmpty(old(settings));
    }
  }

  /**
   * A run of events the window allows: after a successful conversion the timer still runs and
   * ticks on the hidden bar; a second submission leaves the first timer running beside the new one.
   */
  method TicksOutliveCompletion(html: string, md: string)
    requires html != ""
  {
    var w := new ConverterWindow(None);
    w.Submit(0, html, "", s => s);
    w.Tick();
    w.OnConversionFinished(md);
    assert w.timerRunning && !w.progressVisible && w.progressValue == 1;
    w.Tick();
    assert w.progressValue == 2;
    w.Submit(0, html, "", s => s);
    assert w.staleTimers == 1 && w.progressValue == 0;
  }
}
