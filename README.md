# HTML-to-Markdown converter: a Dafny model of its conversion core

The converter is a PyQt5 desktop program. The user pastes HTML, or fetches it from a URL. A
locally loaded language model (`jinaai/reader-lm-0.5b` or `-1.5b`) is asked to turn it into
Markdown. Most of `main.py` builds widgets. This project models the parts of it that have
behaviour that can be stated:

- **The inference worker** (`ModelThread.run`), in `inference.dfy`, with the Python string
  operations it uses, written out exactly in `text.dfy`. The prompt is the fixed instruction,
  the HTML, a blank line and the cue `Markdown:`. The answer is `decoded.split("Markdown:")[-1].strip()`.
  The foreign chain (tokenizer, model, `generate`, `decode`) is a function parameter. It yields
  the decoded text or the text of the exception it raised.
- **The conversion lifecycle** of the window (`convertHTML`, `updateProgressBar`,
  `onConversionFinished`, `onError`), in `converter.dfy`. It is a class, `ConverterWindow`.
  Its fields are the button-enabled flags, the progress bar's visibility and value, the state
  of the progress timer, the output text and the job of the latest worker thread.
- **The settings** (`saveSettings`, `loadSettings`, `resetSettings` and the widget ranges and
  defaults), in `settings.dfy` as functions on values. `ConverterWindow` holds the same state
  and updates it key by key. `settings.json` is a store that gives back the record written to it.
- **Batch processing** (`batchProcess`, `processHTML`), in `batch.dfy`, with `os.path.splitext`
  and `os.path.join` in `paths.dfy`.

What the code does, as the model states it:

- The answer is the stripped text after the **last** cue. The left-to-right split and "after the
  last occurrence" agree because the cue cannot overlap itself. When there is no cue, the whole
  output is returned, stripped. If the model echoes the prompt and then writes cue-free text,
  the answer is that text, stripped, whatever the HTML contained. An answer never contains the
  cue and never starts or ends with whitespace.
- `Submit` with empty input changes nothing. Otherwise it disables Convert, shows the bar at 0
  and starts a timer. A tick raises the value by one while it is below 99. At 99 a tick stops
  the current timer and leaves the value alone. The value never exceeds 99, and ticks never
  lower it.
- Neither completion handler touches the timer, so ticks go on against a hidden bar after a
  conversion ends. `Submit` replaces `self.timer` without stopping the old timer. A timer still
  running then keeps ticking forever, because the 99 branch only stops `self.timer`. The model
  counts these as `staleTimers`. `TicksOutliveCompletion` in `converter.dfy` walks through such
  a run.
- Loading a saved record restores every setting. Every absent key falls back to its own default.
  Resetting gives the same state as loading an empty record, and the same as the widgets'
  creation values.
- A batch writes one `.md` file per `.html` entry, in listing order, always with the text
  `Placeholder Markdown content`. The first read or write that raises ends the whole batch.
  N writes need not mean N distinct files: `..html` and `..html.html` both write `..html.md`.

Four behaviours of the code that are easy to get wrong, each as the model states it:

- With no cue in the output, the whole output is returned stripped, not verbatim.
- Neither completion handler stops the progress timer.
- A failing batch file ends the whole batch. There is no per-file error handling.
- Only a missing settings file is caught. A malformed one raises.

## Model

| member | source | states |
|---|---|---|
| `Text.SplitLast` | main.py:47 | the last piece of a left-to-right `split` on a separator holds no occurrence of the separator |
| `Text.FindFrom` | main.py:47 | `str.find`: the first occurrence at or after the start, or none when there is no occurrence from the start on |
| `Text.LastPieceStart` | main.py:47 | the last split piece starts at the input's start or right after an occurrence, and nothing after it is an occurrence |
| `Text.SplitLastIsAfterLast` | main.py:47 | for a separator that cannot overlap itself, `split(sep)[-1]` equals the text after the last occurrence (`rpartition(sep)[2]`) |
| `Text.Strip` | main.py:47 | `str.strip()` with Python's whitespace set returns a string with no whitespace at either end |
| `Text.StripRemovesOnlySpaces` | main.py:47 | `strip()` returns a slice of its input with only whitespace before and after it |
| `Text.StripOfPadded` | main.py:47 | a trimmed string padded with whitespace on both sides strips back to itself (this characterises `strip`) |
| `Text.StripIdempotent` | main.py:47 | stripping twice equals stripping once |
| `Text.StripKeepsNo` | main.py:47 | stripping a string without the cue cannot produce one |
| `Inference.Prompt` | main.py:32 | the prompt begins with the instruction, carries the HTML verbatim after it, and ends with the cue |
| `Inference.Extract` | main.py:47 | the answer contains no `Markdown:` and has no whitespace at either end, for every decoded output |
| `Inference.CueNoSelfOverlap` | main.py:47 | no proper suffix of `Markdown:` is also a prefix of it |
| `Inference.ExtractIsAfterLast` | main.py:47 | the answer is the stripped text after the last cue in the decoded output |
| `Inference.ExtractWithoutCue` | main.py:47 | with no cue in the output, the answer is the whole output stripped, not verbatim |
| `Inference.ExtractAfterCue` | main.py:47 | whatever precedes a cue, cue-free text after it is the answer, stripped |
| `Inference.ExtractAfterPrompt` | main.py:32-47 | the echoed prompt followed by cue-free text gives that text stripped, whatever the HTML contains |
| `Inference.ExtractOfPrompt` | main.py:32-47 | an output that is only the echoed prompt gives the empty answer |
| `Inference.Run` | main.py:27-51 | the worker emits exactly one outcome; an error exactly when the foreign chain raised, carrying its message unchanged; on success the answer is the extraction of the decoded text, so it has no cue and is trimmed |
| `Inference.RunOfEcho` | main.py:32-49 | when the decoded text is the prompt and cue-free text, the worker emits that text stripped |
| `SettingsStore.ClampInt` | main.py:157-159 | a spin box's `setValue` keeps a value in range and otherwise gives the nearer bound |
| `SettingsStore.ClampReal` | main.py:163-166 | a double spin box's `setValue` keeps a value in range and otherwise gives the nearer bound |
| `SettingsStore.SaveRecord` | main.py:372-382 | the saved object has all nine keys, and for widgets in range loading it over any state restores them |
| `SettingsStore.SelectModel` | main.py:398 | the non-editable combo box takes a registered label and otherwise keeps its current one, so it shows a registered label whenever it did or is given one |
| `SettingsStore.Load` | main.py:387-403 | loading a record on top of widgets showing a registered model leaves every widget in range |
| `SettingsStore.ParamsOf` | main.py:294-301 | the worker gets exactly the six widget values, so they are in range when the widgets are |
| `SettingsStore.DefaultsInRange` | main.py:157-192 | the creation values of the widgets are within their ranges |
| `SettingsStore.LoadOfSave` | main.py:371-403 | loading the nine-key record saved from widgets in range restores every field, whatever was shown before |
| `SettingsStore.LoadOfEmpty` | main.py:391-418 | loading an empty record gives exactly the values `resetSettings` assigns |
| `SettingsStore.SaveLoadSave` | main.py:371-403 | save, load, save writes the same record again |
| `SettingsStore.LoadKeyByKey` | main.py:391-399 | each widget's loaded value depends only on its own key (the model label also on the label shown before) |
| `SettingsStore.LoadAbsentKeys` | main.py:391-399 | each absent key gives its widget that key's own default |
| `Converter.InputText` | main.py:275-278 | the input is the manual text on the first tab and the fetched text on any other |
| `Converter.ConverterWindow.constructor` | main.py:54-62 | a new window has only Convert enabled, the bar hidden at -1, no timer, empty output, and the settings of the file or the defaults |
| `Converter.ConverterWindow.Submit` | main.py:274-310 | empty input changes nothing; otherwise Convert is disabled, the bar is shown at 0, the worker gets the (optionally style-stripped) HTML with the selected model, device and controls, and a new timer runs while a previous running one keeps running |
| `Converter.ConverterWindow.Tick` | main.py:312-317 | below 99 the value rises by exactly one; at 99 the current timer stops and the value stays; the value never falls and never passes 99 |
| `Converter.ConverterWindow.OnConversionFinished` | main.py:319-326 | the output is the answer, Convert, Save, Copy and Preview are enabled, the bar is hidden, and the timer and value are untouched |
| `Converter.ConverterWindow.OnError` | main.py:328-331 | Convert is enabled and the bar hidden; output text, output actions and timer are left exactly as they were |
| `Converter.ConverterWindow.Deliver` | main.py:303-305 | a finished signal reaches the finished handler and an error signal the error handler |
| `Converter.ConverterWindow.SaveSettings` | main.py:371-385 | the record written has all nine keys, and loading it on top of any widget state restores the current settings |
| `Converter.ConverterWindow.LoadSettings` | main.py:387-406 | a missing file changes nothing; otherwise every widget is set from its key or default; the lifecycle state is untouched |
| `Converter.ConverterWindow.ResetSettings` | main.py:408-419 | the widgets get their creation values, the same state loading an empty record gives |
| `Paths.SplitExt` | main.py:527 | `splitext` splits a path into root and extension that concatenate to it; a non-empty extension is the last dot of the base name onwards and some non-dot precedes it in the base name; with no extension, every dot of the base name has only dots before it there |
| `Paths.Join` | main.py:522-528 | `os.path.join` keeps an absolute second part; otherwise it concatenates the parts when the first is empty or ends in `/`, and puts one slash between them when not |
| `Batch.OutputName` | main.py:527 | every output name ends in `.md` |
| `Batch.OutputNameOfHtml` | main.py:527 | for an `.html` entry the output name drops `.html` and adds `.md`, unless only dots precede `.html`, when `.md` is appended to the whole name |
| `Batch.OutputNameExamples` | main.py:527 | `a.html` gives `a.md` and `.html` gives `.html.md` |
| `Batch.OutputNamesCanCollide` | main.py:527 | the distinct entries `..html` and `..html.html` both get the output name `..html.md` |
| `Batch.ProcessHtml` | main.py:532-535 | `processHTML` returns the placeholder text whatever HTML it is given |
| `Batch.Run` | main.py:517-519 | the run is cancelled exactly when the directory dialog returns no directory |
| `Batch.HtmlNames` | main.py:520-521 | the processed entries are `.html` names taken from the listing |
| `Batch.HtmlNamesExact` | main.py:520-521 | a name is processed exactly when it is in the listing and ends in `.html` (case-sensitive) |
| `Batch.HtmlNamesAppend` | main.py:520-521 | processing keeps listing order: the filter distributes over concatenation |
| `Batch.PlannedWrites` | main.py:525-529 | one write per processed entry, in order, to its `.md` path in the directory, with the placeholder text |
| `Batch.Steps` | main.py:520-529 | a run over a non-empty directory is never reported as cancelled |
| `Batch.BatchProcess` | main.py:517-535 | the loop produces exactly the outcome of the entry-by-entry reference: cancelled for no directory, otherwise the writes made and the entry that raised, if any |
| `Batch.RunAllSucceed` | main.py:520-535 | when no read or write raises, exactly one write per `.html` entry happens, in listing order, to its `.md` name, with the placeholder content |
| `Batch.StepsFailureAborts` | main.py:520-529 | a run over a listing with any failing `.html` entry ends aborted, never completed |
| `Batch.RunFailureAborts` | main.py:517-529 | for a chosen directory, any failing `.html` entry in the listing makes the run abort |
| `Batch.RunAborted` | main.py:520-529 | a run that stops stops at the first failing `.html` entry; the writes of exactly the entries before it have happened and none after |
| `Batch.SecondOfThreeFails` | main.py:520-529 | of three `.html` files where the second cannot be read, only the first is written and the third is never reached |

## Left out

- Widget construction, layout, the style sheet, message boxes, file dialogs, the clipboard and
  opening the repository page (`main.py` 65-244, 333-369, 421-473). They are user interface.
  Only the flags and values the widgets expose are modelled.
- `saveMarkdown`, `copyToClipboard` and `previewHTML`. They are wrappers around a file dialog,
  the clipboard and the `markdown` library.
- Thread and timer scheduling. The worker's signals and the timer's ticks are atomic events that
  may arrive in any order once a job exists. The 100 ms interval is not modelled.
- Loading the tokenizer and model, generation and decoding. The `Generator` parameter stands for
  them. The device placement and the CUDA/MPS availability checks are not modelled.
- `updateDevice` and the radio-button signal it is connected to. The radio button that
  `loadSettings` and `resetSettings` check can re-fire this signal and re-derive `self.device`;
  the model keeps the device the code assigns. The model keeps the GPU radio checked exactly
  when the device is not `cpu`.
- `fetchHTML` and `remove_styles`. They use the network and BeautifulSoup. `Submit` takes the
  style remover as a function parameter.
- JSON encoding and file I/O for `settings.json`. The store gives back exactly the record
  written. A malformed file raises in the code and is not modelled. Values of the wrong JSON
  type are not modelled either, because the record's fields are typed.
- ClampReal: does not model the two-decimal rounding of `QDoubleSpinBox.setValue`, because it is
  float arithmetic; values are exact `real`s.
- Text.Strip: strips the fixed set of characters for which Python's `str.isspace()` holds; the
  Unicode database lookup itself is not modelled.
- Submit: allows a submission while a job is in flight, as the code does. The window only
  prevents it by disabling the Convert button. An earlier thread's late signals are therefore
  just further `Deliver` events.
- The advanced window's `convertHTML` override, its custom CSS and Markdown flavour controls
  (`main.py` 537-544). They compute nothing.
- BatchProcess: does not model what becomes of the exception that ends a run after it leaves the
  slot, nor the completion message box. The text read from each file is discarded, because
  `processHTML` ignores it.
