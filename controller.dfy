/** The two objects of the application whose fields the handlers update in
    place: the video thread, holding the device and the transform settings the
    frame loop reads, and the window, holding the selected device, the
    `controls` map, the controls panel, the camera drop-down and the state of
    the mirror, flip and rotate buttons. Widgets are reduced to the values the
    handlers read and write. */
module Controller {
  import opened Text
  import opened Transforms
  import opened ControlLines
  import opened Listing
  import opened Discovery

  /** The capture thread's state, without the thread itself. */
  class VideoThread {
    var device: Option<int>
    var mirror: bool
    var flip: bool
    var rotate: int
    var effect: string

    constructor ()
      ensures device == None && CurrentSettings() == InitialSettings
    {
      device := None;
      mirror := false;
      flip := false;
      rotate := 0;
      effect := "none";
    }

    /** The fields each frame is processed with. */
    function CurrentSettings(): Settings
      reads this
    {
      Settings(mirror, flip, rotate, effect)
    }

    /** `set_device`: the number after `/dev/video`; when that is no integer,
        `int()` raises and the device stays as it was (`ok` is false). */
    method SetDevice(path: string) returns (ok: bool)
      modifies this`device
      ensures ok <==> DeviceNumber(path).Some?
      ensures device == if ok then DeviceNumber(path) else old(device)
    {
      var n := DeviceNumber(path);
      if n.None? {
        return false;
      }
      device := n;
      return true;
    }

    /** One pass of the capture loop's body on a captured frame: mirror, flip,
        rotation, effect, then the conversion to RGB for display. */
    method ProcessFrame(frame: Frame) returns (rgb: Frame)
      ensures rgb == ApplyStages(Stages(CurrentSettings()), frame)
    {
      var f := frame;
      if mirror {
        f := Flip(f, 1);
      }
      if flip {
        f := Flip(f, 0);
      }
      if rotate == 90 {
        f := Rotate(f, Rotate90Clockwise);
      } else if rotate == 180 {
        f := Rotate(f, Rotate180);
      } else if rotate == 270 {
        f := Rotate(f, Rotate90Counterclockwise);
      }
      f := ApplyEffect(effect, f);
      rgb := CvtColor(f, BgrToRgb);
      ProcessedIsStages(CurrentSettings(), frame);
    }
  }

  // ---------------------------------------------------------------------------
  // The controls panel
  // ---------------------------------------------------------------------------

  /** What the controls layout holds: a slider per control, the error label
      `load_controls` shows when listing the controls raised, the stretch
      that ends a parsed listing. */
  datatype PanelItem = SliderItem(control: Control) | ErrorLabel | Stretch

  /** A slider per control, in order. */
  function Sliders(cs: seq<Control>): seq<PanelItem>
    decreases |cs|
  {
    if cs == [] then [] else Sliders(cs[..|cs| - 1]) + [SliderItem(cs[|cs| - 1])]
  }

  /** The controls of the sliders in a panel, in order. */
  function SlidersOf(panel: seq<PanelItem>): seq<Control>
    decreases |panel|
  {
    if panel == [] then []
    else
      var last := match panel[|panel| - 1] case SliderItem(c) => [c] case _ => [];
      SlidersOf(panel[..|panel| - 1]) + last
  }

  lemma {:induction false} SlidersOfAppend(a: seq<PanelItem>, b: seq<PanelItem>)
    ensures SlidersOf(a + b) == SlidersOf(a) + SlidersOf(b)
    decreases |b|
  {
    if b == [] {
      assert a + b == a;
    } else {
      var n := |b| - 1;
      assert (a + b)[..|a + b| - 1] == a + b[..n];
      SlidersOfAppend(a, b[..n]);
    }
  }

  /** The panel's sliders are exactly the controls they were made from. */
  lemma {:induction false} SlidersOfSliders(cs: seq<Control>)
    ensures SlidersOf(Sliders(cs)) == cs
    decreases |cs|
  {
    if cs != [] {
      var init := cs[..|cs| - 1];
      SlidersOfSliders(init);
      SlidersOfAppend(Sliders(init), [SliderItem(cs[|cs| - 1])]);
      assert SlidersOf([SliderItem(cs[|cs| - 1])]) == SlidersOf([]) + [cs[|cs| - 1]];
      assert init + [cs[|cs| - 1]] == cs;
    }
  }

  /** Adding a slider to a panel and its control to the map under its name
      keeps the map the name-to-control map of the panel's sliders. */
  lemma SliderKeepsMap(panel: seq<PanelItem>, c: Control)
    ensures ControlMap(SlidersOf(panel + [SliderItem(c)])) == ControlMap(SlidersOf(panel))[c.name := c]
  {
    SlidersOfAppend(panel, [SliderItem(c)]);
    assert SlidersOf([SliderItem(c)]) == SlidersOf([]) + [c];
    UpdatedStep(map[], SlidersOf(panel), c);
  }

  /** The map of a panel extended with the sliders of a listing and the
      stretch is the panel's map updated with the listing's controls. */
  lemma PanelMapAfter(panel: seq<PanelItem>, cs: seq<Control>)
    ensures ControlMap(SlidersOf(panel + Sliders(cs) + [Stretch])) == Updated(ControlMap(SlidersOf(panel)), cs)
  {
    SlidersOfAppend(panel + Sliders(cs), [Stretch]);
    assert SlidersOf([Stretch]) == SlidersOf([]) + [];
    SlidersOfAppend(panel, Sliders(cs));
    SlidersOfSliders(cs);
    assert SlidersOf(panel + Sliders(cs) + [Stretch]) == SlidersOf(panel) + cs;
    UpdatedAppend(map[], SlidersOf(panel), cs);
  }

  /** The sliders of two runs of controls are those of each, joined. */
  lemma {:induction false} SlidersAppend(a: seq<Control>, b: seq<Control>)
    ensures Sliders(a + b) == Sliders(a) + Sliders(b)
    decreases |b|
  {
    if b == [] {
      assert a + b == a;
    } else {
      var n := |b| - 1;
      assert (a + b)[..|a + b| - 1] == a + b[..n];
      SlidersAppend(a, b[..n]);
    }
  }

  /** The buttons' state agrees with the thread's settings. */
  ghost predicate ButtonsShow(mirrorChecked: bool, flipChecked: bool, rotateText: string,
                              mirror: bool, flip: bool, rotate: int, effect: string) {
    && mirror == mirrorChecked
    && flip == flipChecked
    && IsRotation(rotate)
    && rotateText == RotateLabel(rotate)
    && effect in EffectNames.Values
  }

  /** The panel `load_controls` leaves: the error label when the listing
      command failed, otherwise a slider per control and the stretch. */
  function LoadedPanel(listing: Option<string>): seq<PanelItem> {
    match listing
    case None => [ErrorLabel]
    case Some(out) => Sliders(ParseListing(out)) + [Stretch]
  }

  /** The `controls` map `load_controls` leaves. */
  function LoadedControls(listing: Option<string>): map<string, Control> {
    match listing
    case None => map[]
    case Some(out) => ControlMap(ParseListing(out))
  }

  // ---------------------------------------------------------------------------
  // The window
  // ---------------------------------------------------------------------------

  /** The window's state that the handlers read and write. */
  class WebcamController {
    var currentDevice: Option<string>
    var controls: map<string, Control>
    var panel: seq<PanelItem>
    var cameraItems: seq<CameraItem>
    var mirrorChecked: bool
    var flipChecked: bool
    var rotateText: string
    const thread: VideoThread

    /** What the handlers keep true: the buttons and the thread agree, and
        the `controls` map matches the panel. */
    ghost predicate Valid()
      reads this`mirrorChecked, this`flipChecked, this`rotateText, this`panel, this`controls
      reads thread`mirror, thread`flip, thread`rotate, thread`effect
    {
      SettingsShown() && ControlsShown()
    }

    /** The thread's mirror and flip follow the checkable buttons, the
        rotation is one of the four and the rotate button shows it, and the
        effect is one the drop-down selects. */
    ghost predicate SettingsShown()
      reads this`mirrorChecked, this`flipChecked, this`rotateText
      reads thread`mirror, thread`flip, thread`rotate, thread`effect
    {
      ButtonsShow(mirrorChecked, flipChecked, rotateText, thread.mirror, thread.flip, thread.rotate, thread.effect)
    }

    /** `controls` holds, by name, the controls whose sliders the panel shows. */
    ghost predicate ControlsShown()
      reads this`panel, this`controls
    {
      controls == ControlMap(SlidersOf(panel))
    }

    /** The buttons and the thread's settings as `__init__` sets them:
        unchecked buttons, the rotate button's base text, and the thread's
        initial settings. */
    ghost predicate InitialSettingsShown()
      reads this`mirrorChecked, this`flipChecked, this`rotateText
      reads thread`mirror, thread`flip, thread`rotate, thread`effect
    {
      && !mirrorChecked && !flipChecked && rotateText == RotateBase
      && Settings(thread.mirror, thread.flip, thread.rotate, thread.effect) == InitialSettings
    }

    /** The window before any camera is selected: no device, no controls and
        the initial settings. */
    ghost predicate Initial()
      reads this`currentDevice, this`controls, this`panel, thread`device
      reads this`mirrorChecked, this`flipChecked, this`rotateText
      reads thread`mirror, thread`flip, thread`rotate, thread`effect
    {
      && currentDevice == None && controls == map[] && panel == []
      && thread.device == None
      && InitialSettingsShown()
    }

    /** The window once the first drop-down entry has been selected: the
        initial buttons and settings, and, when the entry carries a device,
        that device opened with the controls `listing` yields; otherwise
        still the initial window. */
    ghost predicate FirstCameraShown(scan: Option<string>, listing: Option<string>)
      reads this`currentDevice, this`controls, this`panel, thread`device
      reads this`mirrorChecked, this`flipChecked, this`rotateText
      reads thread`mirror, thread`flip, thread`rotate, thread`effect
    {
      && InitialSettingsShown()
      && (FirstDevice(scan).None? ==> Initial())
      && (FirstDevice(scan).Some? ==>
            && currentDevice == FirstDevice(scan)
            && panel == LoadedPanel(listing)
            && controls == LoadedControls(listing)
            && thread.device == DeviceNumber(FirstDevice(scan).value))
    }

    /** The window before `__init__` looks for cameras: the initial state with
        an empty camera drop-down. */
    constructor ()
      ensures Initial() && Valid() && cameraItems == [] && fresh(thread)
    {
      currentDevice := None;
      controls := map[];
      panel := [];
      cameraItems := [];
      mirrorChecked := false;
      flipChecked := false;
      rotateText := RotateBase;
      thread := new VideoThread();
      new;
      assert !thread.mirror && !thread.flip && thread.rotate == 0 && thread.effect == "none";
      assert SettingsShown() by {
        assert "none" == EffectNames["None"];
      }
      assert ControlsShown() by {
        assert SlidersOf([]) == [];
      }
    }

    /** `__init__`: the initial window, then `detect_cameras` fills the camera
        drop-down. `init_ui` has connected the drop-down's `currentTextChanged`
        to `change_camera`, so adding the first entry to the empty drop-down
        runs `change_camera` with that entry's device; `listing` is what
        `v4l2-ctl -d <device> --list-ctrls` prints for it. */
    static method Open(scan: Option<string>, info: InfoOutputs, listing: Option<string>)
      returns (w: WebcamController)
      ensures fresh(w) && fresh(w.thread) && w.Valid()
      ensures w.cameraItems == CameraItems(scan, info)
      ensures w.FirstCameraShown(scan, listing)
    {
      w := new WebcamController();
      w.FillCameras(scan, info, listing);
    }

    /** `detect_cameras` run on the window `__init__` has just built, with the
        `change_camera` that adding the first entry triggers: a camera entry
        carries its device, which is then opened; the other entries carry
        none and leave the window as it was. */
    method FillCameras(scan: Option<string>, info: InfoOutputs, listing: Option<string>)
      requires Valid() && Initial() && cameraItems == []
      modifies this`cameraItems, this`currentDevice, this`panel, this`controls, thread`device
      ensures Valid() && cameraItems == CameraItems(scan, info)
      ensures FirstCameraShown(scan, listing)
    {
      DetectCameras(scan, info);
      assert [] + CameraItems(scan, info) == CameraItems(scan, info);
      CameraItemsFirst(scan, info);
      var started := ChangeCamera(cameraItems[0].data, listing);
    }

    /** `detect_cameras`: one entry per capture device, named from its
        `v4l2-ctl --info` output, or a single entry carrying no device when
        none was found or the scan raised. Entries are added after those
        already there. */
    method DetectCameras(scan: Option<string>, info: InfoOutputs)
      modifies this`cameraItems
      ensures cameraItems == old(cameraItems) + CameraItems(scan, info)
    {
      if scan.None? {
        cameraItems := cameraItems + [DetectionError];
        return;
      }
      var devices := DeviceList(scan.value);
      if devices == [] {
        cameraItems := cameraItems + [NoCameras];
        return;
      }
      AddDeviceItems(devices, info);
    }

    /** `detect_cameras`' loop over the devices found: an entry per device,
        named by `get_device_name`. */
    method AddDeviceItems(devices: seq<string>, info: InfoOutputs)
      modifies this`cameraItems
      ensures cameraItems == old(cameraItems) + DeviceItems(devices, DeviceNames(devices, info))
    {
      ghost var names := DeviceNames(devices, info);
      var i := 0;
      while i < |devices|
        invariant i <= |devices|
        invariant cameraItems == old(cameraItems) + DeviceItems(devices[..i], names[..i])
      {
        var name := GetDeviceName(InfoFor(info, devices[i]));
        ghost var done := DeviceItems(devices[..i], names[..i]);
        assert DeviceItems(devices[..i + 1], names[..i + 1]) == done + [DeviceItem(devices[i], name)] by {
          assert name == names[i];
          assert devices[..i + 1][..i] == devices[..i] && names[..i + 1][..i] == names[..i];
        }
        Associate(old(cameraItems), done, [DeviceItem(devices[i], name)]);
        cameraItems := cameraItems + [DeviceItem(devices[i], name)];
        i := i + 1;
      }
      assert devices[..i] == devices && names[..i] == names;
    }

    /** `change_effect`: the display name's effect, `none` for any other name. */
    method ChangeEffect(displayName: string)
      requires Valid()
      modifies thread`effect
      ensures Valid()
      ensures thread.effect == EffectTag(displayName)
    {
      thread.effect := EffectTag(displayName);
      assert "none" == EffectNames["None"];
    }

    /** A click on the checkable mirror button toggles it, and `toggle_mirror`
        copies its state to the thread. */
    method ClickMirror()
      requires Valid()
      modifies this`mirrorChecked, thread`mirror
      ensures Valid()
      ensures mirrorChecked == !old(mirrorChecked) && thread.mirror == mirrorChecked
      ensures thread.CurrentSettings() == old(thread.CurrentSettings()).(mirror := !old(thread.mirror))
    {
      mirrorChecked := !mirrorChecked;
      thread.mirror := mirrorChecked;
    }

    /** A click on the checkable flip button and `toggle_flip`. */
    method ClickFlip()
      requires Valid()
      modifies this`flipChecked, thread`flip
      ensures Valid()
      ensures flipChecked == !old(flipChecked) && thread.flip == flipChecked
      ensures thread.CurrentSettings() == old(thread.CurrentSettings()).(flip := !old(thread.flip))
    {
      flipChecked := !flipChecked;
      thread.flip := flipChecked;
    }

    /** `rotate_video`: 90 degrees more, modulo 360, and the button's text
        shows the new rotation when it is not 0. */
    method RotateVideo()
      requires Valid()
      modifies this`rotateText, thread`rotate
      ensures Valid()
      ensures thread.rotate == NextRotation(old(thread.rotate)) && thread.rotate != old(thread.rotate)
      ensures rotateText == RotateLabel(thread.rotate)
      ensures thread.CurrentSettings() == old(thread.CurrentSettings()).(rotate := thread.rotate)
    {
      NextRotationCycles(thread.rotate);
      thread.rotate := NextRotation(thread.rotate);
      rotateText := RotateLabel(thread.rotate);
    }

    /** `create_slider_control`: a slider for the control at the end of the
        panel, and `controls[name]` set to it. */
    method CreateSliderControl(c: Control)
      modifies this`panel, this`controls
      ensures panel == old(panel) + [SliderItem(c)]
      ensures controls == old(controls)[c.name := c]
    {
      panel := panel + [SliderItem(c)];
      controls := controls[c.name := c];
    }

    /** `parse_and_create_controls`: a slider for each control the listing's
        lines yield, in order, then the stretch. */
    method ParseAndCreateControls(output: string)
      requires ControlsShown()
      modifies this`panel, this`controls
      ensures ControlsShown()
      ensures panel == old(panel) + Sliders(ParseListing(output)) + [Stretch]
      ensures controls == Updated(old(controls), ParseListing(output))
    {
      ghost var panel0 := panel;
      var lines := Split(output, '\n');
      ghost var cs := ParseListing(output);
      assert cs == ParseLines(lines);
      CreateLineSliders(lines);
      panel := panel + [Stretch];
      PanelMapAfter(panel0, cs);
    }

    /** The loop of `parse_and_create_controls`: each line that parses as a
        control gets its slider, in order. */
    method CreateLineSliders(lines: seq<string>)
      modifies this`panel, this`controls
      ensures panel == old(panel) + Sliders(ParseLines(lines))
      ensures controls == Updated(old(controls), ParseLines(lines))
    {
      ghost var panel0, controls0 := panel, controls;
      var i := 0;
      while i < |lines|
        invariant i <= |lines|
        invariant panel == panel0 + Sliders(ParseLines(lines[..i]))
        invariant controls == Updated(controls0, ParseLines(lines[..i]))
      {
        ghost var done := ParseLines(lines[..i]);
        ghost var found := Yield(lines[i]);
        CreateLineSlider(lines[i]);
        ParseLinesStep(lines, i);
        SlidersAppend(done, found);
        Associate(panel0, Sliders(done), Sliders(found));
        UpdatedAppend(controls0, done, found);
        i := i + 1;
      }
      assert lines[..i] == lines;
    }

    /** One pass of that loop: a line the patterns match and that yields a
        control gets its slider. */
    method CreateLineSlider(line: string)
      modifies this`panel, this`controls
      ensures panel == old(panel) + Sliders(Yield(line))
      ensures controls == Updated(old(controls), Yield(line))
    {
      var control := ParseLine(line);
      if control.Some? {
        CreateSliderControl(control.value);
        assert Sliders([control.value]) == [SliderItem(control.value)];
      }
    }

    /** `load_controls`: the panel and `controls` are cleared, then filled from
        what `v4l2-ctl --list-ctrls` printed for the device (`None` when
        running it raised, which leaves only the error label). */
    method LoadControls(listing: Option<string>)
      requires SettingsShown()
      modifies this`panel, this`controls
      ensures Valid()
      ensures panel == LoadedPanel(listing)
      ensures controls == LoadedControls(listing)
    {
      panel := [];
      controls := map[];
      match listing {
        case None =>
          panel := [ErrorLabel];
          assert SlidersOf(panel) == SlidersOf([]) + [];
        case Some(out) =>
          ParseAndCreateControls(out);
          assert [] + Sliders(ParseListing(out)) == Sliders(ParseListing(out));
      }
    }

    /** `start_camera`, without starting or stopping the thread: the thread is
        pointed at the selected device. `ok` is false when `set_device` raises,
        as it does for a path without a number after `/dev/video` or when no
        device is selected. */
    method StartCamera() returns (ok: bool)
      requires Valid()
      modifies thread`device
      ensures Valid()
      ensures ok <==> currentDevice.Some? && DeviceNumber(currentDevice.value).Some?
      ensures thread.device == if ok then DeviceNumber(currentDevice.value) else old(thread.device)
    {
      if currentDevice.None? {
        return false;
      }
      ok := thread.SetDevice(currentDevice.value);
    }

    /** `change_camera` with the drop-down's selected device and what listing
        its controls printed: nothing happens when no device or the current
        one is selected; otherwise the selection is switched to. */
    method ChangeCamera(selected: Option<string>, listing: Option<string>) returns (started: bool)
      requires Valid()
      modifies this`currentDevice, this`panel, this`controls, thread`device
      ensures Valid()
      ensures selected.None? || selected.value == "" || selected == old(currentDevice) ==>
        !started && unchanged(this) && unchanged(thread)
      ensures selected.Some? && selected.value != "" && selected != old(currentDevice) ==>
        && currentDevice == selected
        && panel == LoadedPanel(listing)
        && controls == LoadedControls(listing)
        && (started <==> DeviceNumber(selected.value).Some?)
        && thread.device == (if started then DeviceNumber(selected.value) else old(thread.device))
    {
      if selected.None? || selected.value == "" || selected == currentDevice {
        return false;
      }
      started := SwitchCamera(selected.value, listing);
    }

    /** The body of `change_camera` past its guard: the device becomes the
        current one, its controls are loaded and the thread is pointed at
        it. */
    method SwitchCamera(device: string, listing: Option<string>) returns (started: bool)
      requires SettingsShown()
      modifies this`currentDevice, this`panel, this`controls, thread`device
      ensures Valid()
      ensures currentDevice == Some(device)
      ensures panel == LoadedPanel(listing)
      ensures controls == LoadedControls(listing)
      ensures started <==> DeviceNumber(device).Some?
      ensures thread.device == if started then DeviceNumber(device) else old(thread.device)
    {
      currentDevice := Some(device);
      LoadControls(listing);
      started := StartCamera();
    }
  }
}
