# FluxCam controller core in Dafny

FluxCam (`Flux_Cam.py`) is a PyQt6 webcam controller. It lists the capture
devices, shows a live preview through OpenCV, applies a mirror, a flip, a
rotation and one of nine effects to every frame, and creates a slider for
every adjustable V4L2 control that `v4l2-ctl --list-ctrls` reports. This
project models the logic behind those features:

- **The control-listing parser** (`parse_and_create_controls`). Both regular
  expressions are written out as declarative match predicates over positions
  and as scanners, with a soundness lemma and a completeness lemma for each.
  Python's `re.match` is followed, with ASCII `\w` and `\d`:
  - the match is anchored at the start of the line but not at its end;
  - `\s` is the `str.isspace` set, `\w` and `\d` are ASCII;
  - because `.*` is greedy, the last `default=… value=…` pair reachable
    without crossing a newline wins.

  On top of the patterns the model keeps the checks the source makes around
  them: skipped header and blank lines, the `int` type check, the
  `inactive` / `flags=has-payload` tests, and the `elif` that keeps a line the
  integer pattern matched from being retried as a boolean line. It then
  models the whole listing and the `controls` map, keyed by name, that
  `create_slider_control` fills. `ParseLine` is proved to give the expected
  control on two example lines: an `(int)` brightness control and a
  `(bool)` white-balance switch.
- **The video thread's transform settings.**
  - The effect drop-down's names map to effect tags.
  - `apply_effect` is a dispatch over symbolic OpenCV calls.
  - The rotate button cycles the rotation and sets its own label.
  - The mirror and flip buttons toggle their settings.
  - Each captured frame is processed in the order `run` uses.
- **Camera discovery.**
  - The device list is parsed out of the scan output.
  - Each device's name comes from its `Card type` line.
  - The drop-down entries are built from the devices and their names.
  - `set_device` turns `/dev/videoN` into `N`.
  - `change_camera` is guarded so that nothing happens when no device, or
    the current one, is selected.
  - Opening the window selects the first drop-down entry, which opens the
    first camera found.

Modules, from the bottom up:

- `Text` holds the `str` operations used: `strip`, `split`, `in`, `replace`,
  `int()` and decimal rendering.
- `Lexemes`, `Tails` and `Patterns` hold the two regular expressions.
- `ControlLines` handles one listing line.
- `SampleLines` proves what `ParseLine` gives on two example lines.
- `Listing` handles a whole listing and the controls map.
- `Transforms` holds effects, rotation and the frame pipeline.
- `Discovery` holds the device list, the device names, the drop-down entries
  and the device number.
- `Controller` holds the two classes whose fields the handlers update:
  `VideoThread` and `WebcamController`.

The outputs of external commands are method parameters. `None` stands for a
command whose `subprocess.run` raised. The per-device `v4l2-ctl -d <path>
--info` outputs are one map from device path to output; a path missing from
it is a device whose command raised.

## Model

| member | source | states |
|---|---|---|
| Text.Strip | Flux_Cam.py:400 | the stripped text is empty exactly when the input is all whitespace, and otherwise starts and ends with a non-space |
| Text.StripPadded | Flux_Cam.py:424 | stripping removes exactly the surrounding whitespace from a text that neither starts nor ends with a space |
| Text.StripIdempotent | Flux_Cam.py:400 | stripping twice is stripping once |
| Text.Split | Flux_Cam.py:514 | `split('\n')` always yields at least one piece |
| Text.JoinSplit | Flux_Cam.py:514 | no piece of `split('\n')` contains the separator, and joining the pieces with it restores the text |
| Text.SplitAtSeparator | Flux_Cam.py:514 | splitting `a + sep + b`, with `sep` not in `a`, gives the pieces of `a` followed by the pieces of `b` |
| Text.SplitJoin | Flux_Cam.py:514 | splitting undoes joining pieces that do not contain the separator |
| Text.ReplaceAll | Flux_Cam.py:33 | `str.replace` of every non-overlapping occurrence, left to right; replacing with the empty text never lengthens the text |
| Text.ReplaceAllMissing | Flux_Cam.py:33 | `replace` leaves a text without the pattern unchanged |
| Text.DecimalValueShowNat | Flux_Cam.py:479 | the decimal rendering of a natural number reads back as that number |
| Text.ShowInt | Flux_Cam.py:479 | `str(n)` is never empty and starts with `-` exactly when `n` is negative; `ShowIntInjective` and `PyIntShowInt` characterise it |
| Text.ShowIntInjective | Flux_Cam.py:479 | different integers render differently |
| Text.PyIntShowInt | Flux_Cam.py:528-532 | `int(str(n)) == n` for every integer |
| Text.PyIntNegative | Flux_Cam.py:529 | `int('-' + digits)` is the negated value |
| Text.PyInt | Flux_Cam.py:33 | `int()` of a text: surrounding whitespace ignored, an optional sign, decimal digits with single underscores between them; `None` where Python raises `ValueError`, which a blank text, or one holding any of U+001C to U+001F, always does |
| Text.PyIntPadded | Flux_Cam.py:33 | `int()` reads the rendering of any integer between runs of the whitespace it skips: `str.isspace` characters other than U+001C to U+001F |
| Text.PyIntRejectsSeparator | Flux_Cam.py:33 | a text holding one of U+001C to U+001F makes `int()` raise, even where that character is whitespace to `str.strip()` |
| Lexemes.RunEndMaximal | Flux_Cam.py:521 | a greedy scan of one character class ends where the class stops |
| Lexemes.ScanNumberSound | Flux_Cam.py:521 | the number scanner finds an optional `-` followed by a maximal run of digits |
| Lexemes.ScanNumberComplete | Flux_Cam.py:521 | every such number is the one the scanner finds |
| Lexemes.NumberValueIsPyInt | Flux_Cam.py:528-532 | a matched number's value is what `int()` returns for its text |
| Lexemes.ScanHeadSound | Flux_Cam.py:521 | the head scanner's result matches `\s*(\w+)\s+0x\w+\s+\(` |
| Lexemes.ScanHeadComplete | Flux_Cam.py:521 | any head match of the line is the one the scanner finds |
| Lexemes.ScanColonSound | Flux_Cam.py:521 | the colon scanner's result matches `\s*:` |
| Lexemes.ScanColonComplete | Flux_Cam.py:521 | any `\s*:` match is the one the colon scanner finds |
| Lexemes.ScanTypeEndSound | Flux_Cam.py:521 | the type scanner's result matches `\w+\)` |
| Lexemes.ScanTypeEndComplete | Flux_Cam.py:521 | any `\w+\)` match is the one the type scanner finds |
| Lexemes.ScanPairSound | Flux_Cam.py:521 | the pair scanner's result matches `key1=<n>\s+key2=<n>` (`min=`/`max=` or `default=`/`value=`) |
| Lexemes.ScanPairComplete | Flux_Cam.py:521 | every such pair is the one the pair scanner finds |
| Tails.LastTailSound | Flux_Cam.py:521 | scanning back from the right finds the rightmost `default=… value=…` in a range, or proves that there is none |
| Tails.ScanGreedyTailSound | Flux_Cam.py:521 | the tail found after `.*` is a match and no later position reachable through `.*` has one, as greedy `.*` requires |
| Tails.ScanGreedyTailComplete | Flux_Cam.py:521 | the greedy tail match is the one the scanner finds |
| Patterns.MatchInt | Flux_Cam.py:521 | a match finds the head, type, colon and bounds in that order, with the `default=`/`value=` tail after the max number and inside the line; `MatchIntSound` and `MatchIntComplete` characterise it |
| Patterns.MatchIntSound | Flux_Cam.py:521 | what the integer matcher returns satisfies the whole integer pattern under `re.match` |
| Patterns.MatchIntComplete | Flux_Cam.py:521 | any match of the integer pattern is the one the matcher returns, so the groups are unique |
| Patterns.MatchBool | Flux_Cam.py:537 | a match finds the head's parenthesis, then the colon, then the `default=`/`value=` tail, all inside the line; `MatchBoolSound` and `MatchBoolComplete` characterise it |
| Patterns.MatchBoolSound | Flux_Cam.py:537 | what the boolean matcher returns satisfies the boolean pattern |
| Patterns.MatchBoolComplete | Flux_Cam.py:537 | any match of the boolean pattern is the one the matcher returns |
| Patterns.PatternsExclusive | Flux_Cam.py:521-537 | no line matches both the integer and the boolean pattern |
| ControlLines.ParseLine | Flux_Cam.py:516-540 | the loop body of `parse_and_create_controls` for one line; a line that yields a control is not a skipped line, and the control has a non-empty name |
| ControlLines.IntControl | Flux_Cam.py:524-533 | the slider of an accepted integer match takes the name group, `min`, `max`, `value` as its position and `default`; its name is never empty |
| ControlLines.BoolControl | Flux_Cam.py:536-540 | the slider of a boolean match has range 0 to 1, `value` as its position and `default`; its name is never empty |
| ControlLines.ParseLineMeetsPatterns | Flux_Cam.py:516-540 | for every line, the parser gives what the patterns and the surrounding checks say: nothing for skipped lines, the slider of an accepted `int` match, nothing for any other integer match, the boolean slider when `(bool)` is present without `inactive` and the boolean pattern matches, and nothing otherwise; parsing never fails |
| ControlLines.NoIntMatch | Flux_Cam.py:523 | when no integer match exists, the integer matcher reports none |
| ControlLines.ParseIntLine | Flux_Cam.py:521-533 | an `int` line without `inactive` or `flags=has-payload` yields its name, min, max, current and default |
| ControlLines.ParseRejectedIntLine | Flux_Cam.py:523-536 | an integer match whose type is not `int`, or whose line has `inactive` or `flags=has-payload`, yields nothing and is not retried as a boolean line |
| ControlLines.ParseBoolLine | Flux_Cam.py:536-540 | a boolean match yields min 0, max 1, and the line's current and default values |
| SampleLines.IntLineControl | Flux_Cam.py:521-533 | `brightness 0x0098 (int) : min=0 max=255 step=1 default=128 value=64` gives `brightness` with min 0, max 255, current 64 and default 128 |
| SampleLines.BoolLineControl | Flux_Cam.py:536-540 | `white_balance_automatic 0x0009 (bool) : default=1 value=0` gives `white_balance_automatic` with min 0, max 1, current 0 and default 1 |
| Listing.ParseLines | Flux_Cam.py:516-540 | the controls the loop creates for a list of lines, in order; each line yields at most one control |
| Listing.ParseListing | Flux_Cam.py:514-540 | every control of a listing has a non-empty name, as `(\w+)` demands; `ParseListingAppend` and `ParseLinesSources` characterise it |
| Listing.ParseLinesAppend | Flux_Cam.py:516 | the controls of a list of lines are those of its first part followed by those of its rest |
| Listing.ParseListingAppend | Flux_Cam.py:514-516 | controls come out in the order of the listing's lines |
| Listing.ParseLinesSources | Flux_Cam.py:516-540 | every control comes from a line of the listing that yields it |
| Listing.ParseLinesSkipped | Flux_Cam.py:517-518 | blank and header lines yield no control |
| Listing.Updated | Flux_Cam.py:635 | the `controls` map after `self.controls[name] = …` for each control in turn; no key is ever removed |
| Listing.UpdatedStep | Flux_Cam.py:635 | adding one more control sets its name's entry |
| Listing.UpdatedAppend | Flux_Cam.py:635 | adding two runs of controls one after the other is adding them joined |
| Listing.UpdatedKeys | Flux_Cam.py:635 | the map's keys are its old keys plus the names of the controls added |
| Listing.UpdatedLastWins | Flux_Cam.py:635 | a name maps to the last control added under that name |
| Listing.UpdatedKeepsOthers | Flux_Cam.py:635 | names no added control has keep their old entry |
| Transforms.ApplyEffect | Flux_Cam.py:79-125 | `apply_effect`'s chain of OpenCV calls per tag; a tag outside the eight frame-changing effects returns the frame as it is |
| Transforms.ApplyEffectIdentity | Flux_Cam.py:79-125 | `apply_effect` returns the frame unchanged exactly for `none` and for unknown tags |
| Transforms.EffectTag | Flux_Cam.py:451-464 | `effect_map.get(name, 'none')`: the tag is `none` or one of the eight frame-changing effects |
| Transforms.EffectTagChoices | Flux_Cam.py:451-464 | every display name except `None` selects a frame-changing effect, and any other name selects `none` |
| Transforms.EffectTagInjective | Flux_Cam.py:453-463 | no two display names select the same effect |
| Transforms.NextRotation | Flux_Cam.py:476 | the next rotation lies in [0, 360) |
| Transforms.NextRotationCycles | Flux_Cam.py:476 | from one of 0/90/180/270, a press gives another of them, never the same one, and four presses restore it |
| Transforms.RotationAfterPresses | Flux_Cam.py:476 | from the initial 0, `n` presses give `90 (n mod 4)` |
| Transforms.RotateLabel | Flux_Cam.py:477-480 | the rotate button's text; it is the base text when the rotation is 0, and longer than it otherwise |
| Transforms.RotateLabelShowsRotation | Flux_Cam.py:477-480 | the label is the bare base text exactly when the rotation is 0; otherwise it starts with the base text, which is followed by ` (N°)` |
| Transforms.RotateLabelInjective | Flux_Cam.py:477-480 | different rotations give different labels |
| Transforms.Stages | Flux_Cam.py:54-70 | the calls `run` makes on a frame under the current settings; at least the effect and the RGB conversion, at most five |
| Transforms.ApplyStagesAppend | Flux_Cam.py:54-70 | running two groups of stages in turn is the same as running them joined |
| Transforms.ProcessedIsStages | Flux_Cam.py:54-70 | `run`'s nested calls are its stages applied in order |
| Transforms.TurnedIsStages | Flux_Cam.py:54-65 | the mirror, flip and rotation calls are their stages applied in order |
| Transforms.ApplyTail | Flux_Cam.py:68-70 | the effect and then the RGB conversion are the last two stages |
| Transforms.StagesOrder | Flux_Cam.py:54-70 | mirror comes before flip, flip before rotation, and the effect and RGB conversion always come last; mirror, flip and rotation stages are present exactly when their settings ask for them |
| Transforms.InitialPipeline | Flux_Cam.py:24-29 | with the initial settings a frame is only converted to RGB |
| Discovery.StrippedNonBlank | Flux_Cam.py:400 | `[d.strip() for d in lines if d.strip()]`: at most one device per line |
| Discovery.DeviceList | Flux_Cam.py:400 | the devices of the scan output: at most one per line of the output |
| Discovery.StrippedNonBlankEntries | Flux_Cam.py:400 | every device is non-empty, already stripped, and the stripped form of one of the lines |
| Discovery.StrippedNonBlankNone | Flux_Cam.py:400-407 | the device list is empty exactly when all lines are blank |
| Discovery.DeviceListEmpty | Flux_Cam.py:400-407 | no devices exactly when the scan output is all whitespace |
| Discovery.DeviceListAppend | Flux_Cam.py:400 | devices are listed in the order of the output's lines |
| Discovery.DeviceListEntries | Flux_Cam.py:400 | each device is non-empty, already stripped, and the stripped form of one of the output's lines |
| Discovery.AfterFirst | Flux_Cam.py:424 | `split(c, 1)[1]`, when it exists, is the text after a `c` that has no `c` before it; `AfterFirstMissing` and `AfterFirstAt` characterise it |
| Discovery.AfterFirstMissing | Flux_Cam.py:424 | `split(':', 1)[1]` fails exactly when there is no colon |
| Discovery.AfterFirstAt | Flux_Cam.py:424 | `split(':', 1)[1]` is everything after the first colon |
| Discovery.NameFromLines | Flux_Cam.py:422-427 | the loop over the `--info` lines with its early returns; a name other than `Unknown` comes from a line containing `Card type` |
| Discovery.DeviceNameOf | Flux_Cam.py:413-427 | `get_device_name`: `Unknown` when the command raised; a name other than `Unknown` comes from a `Card type` line of the output |
| Discovery.NameFromFirstCardLine | Flux_Cam.py:422-427 | the name comes from the first line that contains `Card type`: the stripped text after its first colon, or `Unknown` when there is no colon |
| Discovery.NameWithoutCardLine | Flux_Cam.py:422-427 | with no `Card type` line the name is `Unknown` |
| Discovery.GetDeviceName | Flux_Cam.py:413-427 | the loop with early returns computes the name the line scan defines |
| Discovery.CameraItems | Flux_Cam.py:388-411 | the entries `detect_cameras` adds; there is always at least one |
| Discovery.DeviceItems | Flux_Cam.py:403-405 | one `device (name)` entry per device, in order, each carrying its device |
| Discovery.CameraItemsCarryDevices | Flux_Cam.py:388-411 | at least one entry is added; the devices the entries carry are exactly the scanned devices, in order, one entry per device; a failed scan adds only the error entry, and a scan that lists no device only the no-cameras entry, neither carrying a device |
| Discovery.CarriedDevicesOfItems | Flux_Cam.py:403-405 | one entry per device, carrying that device |
| Discovery.DeviceItemsAt | Flux_Cam.py:403-405 | the `i`-th entry is the `i`-th device with its name |
| Discovery.CameraItemsFirst | Flux_Cam.py:400-411 | the first entry carries the first device listed, or nothing when the scan raised or listed none; a carried device is never empty |
| Discovery.DeviceNumberOfVideoPath | Flux_Cam.py:33 | `/dev/videoN` gives `N` |
| Discovery.DeviceNumber | Flux_Cam.py:33 | `set_device`'s `int(path.replace("/dev/video", ""))`, `None` where `int()` raises; `/dev/video` alone gives no number, because `int('')` raises |
| Controller.VideoThread.constructor | Flux_Cam.py:22-29 | no device; mirror and flip off, rotation 0, effect `none` |
| Controller.VideoThread.SetDevice | Flux_Cam.py:31-34 | the device becomes the path's number; when `int()` raises, the device is left as it was |
| Controller.VideoThread.ProcessFrame | Flux_Cam.py:54-70 | the displayed frame is the capture passed through the stages of the current settings, in order |
| Controller.SlidersOfAppend | Flux_Cam.py:634 | the sliders of a panel are those of its parts, in order |
| Controller.SlidersOfSliders | Flux_Cam.py:634 | the panel's sliders are exactly the controls they were made from |
| Controller.SlidersAppend | Flux_Cam.py:516-543 | the sliders made for two runs of controls are those of each run, in order |
| Controller.SliderKeepsMap | Flux_Cam.py:634-635 | adding a slider to the panel and its control to the map keeps the map equal to the map of the panel's sliders |
| Controller.PanelMapAfter | Flux_Cam.py:512-543 | after a listing's sliders and the stretch are added, the map of the panel's sliders is the old map updated with the listing's controls |
| Controller.WebcamController.constructor | Flux_Cam.py:134-140 | before cameras are looked for: no device, no controls, an empty panel and drop-down, unchecked buttons, the rotate button's base text, the thread's initial settings; the window invariant holds |
| Controller.WebcamController.Open | Flux_Cam.py:134-141 | `__init__`: the drop-down holds exactly the detected cameras' entries; the buttons and the thread's settings are the initial ones; with no device in the first entry nothing else is set, and otherwise, because adding that entry fires `change_camera`, the first device is current, its controls are loaded and the thread points at its number |
| Controller.WebcamController.FillCameras | Flux_Cam.py:400-437 | `detect_cameras` on the freshly built window, then the `change_camera` that its first `addItem` triggers: the drop-down holds the detected entries; with no device in the first entry the window stays initial, otherwise that device is current, its controls are loaded and the thread points at its number |
| Controller.WebcamController.DetectCameras | Flux_Cam.py:388-411 | the entries for the scan are appended after the entries already present: the error entry when the scan raised, the no-cameras entry when it listed none, else one entry per device |
| Controller.WebcamController.AddDeviceItems | Flux_Cam.py:403-405 | the loop appends, in order, one entry per device, named as `get_device_name` names it |
| Controller.WebcamController.ChangeEffect | Flux_Cam.py:451-464 | the thread's effect is the display name's tag (`none` for an unknown name); the invariant is kept |
| Controller.WebcamController.ClickMirror | Flux_Cam.py:466-468 | the button toggles and the thread's mirror follows it |
| Controller.WebcamController.ClickFlip | Flux_Cam.py:470-472 | the button toggles and the thread's flip follows it |
| Controller.WebcamController.RotateVideo | Flux_Cam.py:474-480 | the rotation advances by 90 modulo 360 and is never the same as before, the button text shows the new rotation, and the invariant is kept |
| Controller.WebcamController.CreateSliderControl | Flux_Cam.py:634-635 | a slider is appended to the panel and the control is stored under its name |
| Controller.WebcamController.ParseAndCreateControls | Flux_Cam.py:512-543 | the panel gains a slider for each control the listing yields, in order, then a stretch; the map gains them under their names, the last one winning; the map still matches the panel's sliders |
| Controller.WebcamController.CreateLineSliders | Flux_Cam.py:516-541 | the loop over the lines adds the sliders and map entries of the lines' controls, in line order |
| Controller.WebcamController.CreateLineSlider | Flux_Cam.py:517-541 | one line adds the slider and map entry of the control it yields, or nothing |
| Controller.WebcamController.LoadControls | Flux_Cam.py:482-510 | the panel and map are cleared first; they then hold the listing's sliders and its name-to-control map, or only the error label when listing raised; the window invariant holds afterwards |
| Controller.WebcamController.StartCamera | Flux_Cam.py:439-445 | the thread's device becomes the selected device's number, or stays as it was when `set_device` raises |
| Controller.WebcamController.ChangeCamera | Flux_Cam.py:429-437 | with no device, an empty one, or the current one selected, nothing changes; otherwise the selection becomes the current device, its controls are loaded and the thread is pointed at it |
| Controller.WebcamController.SwitchCamera | Flux_Cam.py:435-437 | the device becomes the current one, the panel and map hold its listing's sliders and controls, the thread's device is its number when it has one, and the window invariant holds |

## Left out

- **Qt.** Widget construction, styling, signals and slots are not modelled
  (`init_ui`, `update_frame`, `closeEvent`, `main`). A widget is reduced to
  the values the handlers read and write:
  - the panel's items;
  - the drop-down entries;
  - the checked state of the mirror and flip buttons;
  - the rotate button's text.
- **Drop-down signals.** `ChangeCamera` receives the selected entry's device
  as a parameter, and the unused `selection` argument is dropped. The one
  signal `__init__` fires, when `detect_cameras` adds the first entry, is
  modelled by `Open`. In the source that `change_camera` runs inside the
  first `addItem`, before the remaining devices are named; the model runs it
  after `detect_cameras` returns. `change_camera` reads nothing but the
  selected entry, so the final state is the same. A user's later selections
  are calls to `ChangeCamera`.
- **Slider clamping.** A Qt slider clamps its value into its range. The
  model stores each control's values as the listing gives them, and the
  source itself never checks `min <= value <= max`.
- **Map values.** The `controls` map stores the whole control record, not
  the widget dictionary `{'slider', 'label', 'default'}`.
- **External commands and their errors.** `subprocess.run` calls, timeouts
  and exception messages are parameters or `None`. This covers the scan,
  `--info`, `--list-ctrls` and `--set-ctrl`. The error label's text and the
  printed errors are not modelled.
- **Thread lifecycle and the capture loop.** `QThread.start`, `stop`, `wait`,
  the `running` flag, `cv2.VideoCapture`, `cap.read` and `cap.release` are
  device I/O and threading. `StartCamera` models only `set_device`, and
  `ProcessFrame` models one pass of the loop body on one captured frame.
- **Pixel semantics.** OpenCV operations and the `QImage` conversion are
  uninterpreted frame terms. Sepia uses floating-point weights, and the
  emboss `+ 128` wraps the way numpy `uint8` arithmetic does.
- **`update_control` and the reset button.** They run `v4l2-ctl --set-ctrl`
  and update a label with `str.title()`. This is process I/O and Unicode
  case rules.
- **Non-ASCII characters.** `\w` and `\d` are ASCII only here. Python's
  `str` patterns also accept other Unicode letters and digits in names and
  numbers.
- **Numbers in the listing.** The patterns admit only `-?\d+`, so `int()`
  sees only such group text. `Lexemes.NumberValueIsPyInt` proves that the
  model's value is `int()`'s. Two of the source's failures on that path are
  not modelled; they are listed below.
- NumberValueIsPyInt: equates the value with `int()` for any number of
  digits. CPython 3.11 and later, and the 3.7 to 3.10 releases that
  took the same fix, make `int()` raise `ValueError` on a text with more
  than 4300 digits (`sys.int_info.default_max_str_digits`). The model knows
  no such limit.
- Text.PyInt: has no 4300-digit limit. It also rejects non-ASCII decimal
  digits, such as `١`, which Python's `int()` reads as their values.
  Whitespace, the sign and underscores follow CPython.
- DeviceNumber: inherits `Text.PyInt`'s two gaps. A device path whose number
  has more than 4300 digits gets a number here, and one written with
  non-ASCII digits gets none. In the source the first case raises and the
  second has a number. The paths come from a `/dev/video*` glob.
- WebcamController.LoadControls: promises every slider of the listing plus
  the stretch. In the source a control can stop the listing early in two
  ways. `int()` raises on a group of more than 4300 digits. The slider's
  `setMinimum`, `setMaximum` and `setValue` take a C `int`, so PyQt raises
  `OverflowError` for a value outside [-2^31, 2^31 - 1]. Both happen before
  that control's widget is added or its name stored. `except Exception` then
  leaves the earlier sliders, adds the error label and no stretch. The
  model does not bound the values; `ChangeCamera`, `SwitchCamera`, `Open`
  and `FillCameras` inherit this through the loaded panel.
- WebcamController.ParseAndCreateControls: the same two failures end the
  loop early in the source and skip the stretch; the model always adds
  every control and the stretch.
- StartCamera: `set_device` is not guarded in the source, so its
  `ValueError` propagates out of `start_camera` and `change_camera`. The
  model returns `false` and leaves the thread's device as it was instead of
  modelling that unwinding. What `change_camera` did before the call (the
  current device and the loaded controls) stays, as it does in the source.
- **Thread safety.** Concurrent reads of the settings by the capture thread
  while the handlers write them are not modelled.
