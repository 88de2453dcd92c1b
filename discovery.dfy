/** Camera discovery text: the device paths a scan prints, the friendly name
    `v4l2-ctl --info` reports for a device, the drop-down entries built from
    them, and the device number `set_device` derives from a path. The outputs
    of the external commands are parameters; `None` stands for a command that
    raised. */
module Discovery {
  import opened Text

  // ---------------------------------------------------------------------------
  // The device list: `[d.strip() for d in out.split('\n') if d.strip()]`
  // ---------------------------------------------------------------------------

  /** The stripped lines that are not blank, in order. */
  function StrippedNonBlank(lines: seq<string>): (stripped: seq<string>)
    ensures |stripped| <= |lines|
    decreases |lines|
  {
    if lines == [] then [] else StrippedLine(lines[0]) + StrippedNonBlank(lines[1..])
  }

  /** One line's contribution: the line stripped, unless that leaves nothing. */
  function StrippedLine(line: string): seq<string> {
    if Strip(line) == [] then [] else [Strip(line)]
  }

  function DeviceList(scan: string): (devices: seq<string>)
    ensures |devices| <= |Split(scan, '\n')|
  {
    StrippedNonBlank(Split(scan, '\n'))
  }

  /** Each device is a non-blank line of the scan with its surrounding
      whitespace removed. */
  lemma {:induction false} StrippedNonBlankEntries(lines: seq<string>)
    ensures forall d | d in StrippedNonBlank(lines) ::
      d != [] && Strip(d) == d && exists l | l in lines :: Strip(l) == d
    decreases |lines|
  {
    if lines != [] {
      StrippedNonBlankEntries(lines[1..]);
      StripIdempotent(lines[0]);
      assert forall l | l in lines[1..] :: l in lines;
    }
  }

  lemma {:induction false} StrippedNonBlankAppend(a: seq<string>, b: seq<string>)
    ensures StrippedNonBlank(a + b) == StrippedNonBlank(a) + StrippedNonBlank(b)
    decreases |a|
  {
    if a == [] {
      assert a + b == b;
    } else {
      var h := StrippedLine(a[0]);
      assert StrippedNonBlank(a + b) == h + StrippedNonBlank(a[1..] + b) by {
        assert (a + b)[0] == a[0] && (a + b)[1..] == a[1..] + b;
      }
      StrippedNonBlankAppend(a[1..], b);
    }
  }

  lemma {:induction false} StrippedNonBlankNone(lines: seq<string>)
    ensures StrippedNonBlank(lines) == [] <==> forall l | l in lines :: AllSpace(l)
    decreases |lines|
  {
    if lines != [] {
      StrippedNonBlankNone(lines[1..]);
      assert forall l | l in lines :: l == lines[0] || l in lines[1..];
    }
  }

  /** Text joined with a whitespace separator is blank exactly when every
      piece is. */
  lemma {:induction false} JoinAllSpace(parts: seq<string>, sep: char)
    requires |parts| >= 1 && IsSpace(sep)
    ensures AllSpace(Join(parts, sep)) <==> forall p | p in parts :: AllSpace(p)
    decreases |parts|
  {
    if |parts| > 1 {
      JoinAllSpace(parts[1..], sep);
      var a, b := parts[0], Join(parts[1..], sep);
      var s := a + [sep] + b;
      assert AllSpace(s) <==> AllSpace(a) && AllSpace(b) by {
        if AllSpace(a) && AllSpace(b) {
          forall k | 0 <= k < |s| ensures IsSpace(s[k]) {
            if k < |a| {
              assert s[k] == a[k];
            } else if k > |a| {
              assert s[k] == b[k - |a| - 1];
            }
          }
        }
        if AllSpace(s) {
          forall k | 0 <= k < |a| ensures IsSpace(a[k]) { assert a[k] == s[k]; }
          forall k | 0 <= k < |b| ensures IsSpace(b[k]) { assert b[k] == s[k + |a| + 1]; }
        }
      }
      assert forall p | p in parts :: p == parts[0] || p in parts[1..];
    }
  }

  /** No device is found exactly when the scan printed only whitespace. */
  lemma DeviceListEmpty(scan: string)
    ensures DeviceList(scan) == [] <==> AllSpace(scan)
  {
    StrippedNonBlankNone(Split(scan, '\n'));
    JoinAllSpace(Split(scan, '\n'), '\n');
    JoinSplit(scan, '\n');
  }

  /** Devices are listed in the order the scan printed them. */
  lemma DeviceListAppend(a: string, b: string)
    requires '\n' !in a
    ensures DeviceList(a + "\n" + b) == DeviceList(a) + DeviceList(b)
  {
    SplitAtSeparator(a, b, '\n');
    SplitWithoutSeparator(a, '\n');
    StrippedNonBlankAppend(Split(a, '\n'), Split(b, '\n'));
  }

  lemma DeviceListEntries(scan: string)
    ensures forall d | d in DeviceList(scan) ::
      d != [] && Strip(d) == d && exists l | l in Split(scan, '\n') :: Strip(l) == d
  {
    StrippedNonBlankEntries(Split(scan, '\n'));
  }

  // ---------------------------------------------------------------------------
  // get_device_name
  // ---------------------------------------------------------------------------

  const CardType := "Card type"
  const Unknown := "Unknown"

  /** `s.split(c, 1)[1]`: the text after the first `c`; `None` where Python
      raises `IndexError` because `c` does not occur. */
  function AfterFirst(s: string, c: char): (r: Option<string>)
    ensures r.Some? ==> var i := |s| - |r.value| - 1;
      0 <= i && s[i] == c && c !in s[..i] && r.value == s[i + 1..]
    decreases |s|
  {
    if s == [] then None
    else if s[0] == c then Some(s[1..])
    else AfterFirst(s[1..], c)
  }

  lemma {:induction false} AfterFirstMissing(s: string, c: char)
    ensures AfterFirst(s, c).None? <==> c !in s
    decreases |s|
  {
    if s != [] {
      AfterFirstMissing(s[1..], c);
      assert c in s <==> s[0] == c || c in s[1..];
    }
  }

  /** With the first `c` at `i`, the text after it is `s[i + 1..]`. */
  lemma {:induction false} AfterFirstAt(s: string, c: char, i: nat)
    requires i < |s| && s[i] == c && c !in s[..i]
    ensures AfterFirst(s, c) == Some(s[i + 1..])
    decreases i
  {
    if i > 0 {
      assert s[0] in s[..i];
      assert s[1..][..i - 1] == s[1..i];
      assert forall x | x in s[1..i] :: x in s[..i];
      AfterFirstAt(s[1..], c, i - 1);
    }
  }

  /** The name the first `Card type` line gives: the stripped text after its
      first colon, or `Unknown` when it has none or there is no such line. */
  function NameFromLines(lines: seq<string>): (name: string)
    ensures name != Unknown ==> exists i :: 0 <= i < |lines| && Contains(lines[i], CardType)
    decreases |lines|
  {
    if lines == [] then Unknown
    else if Contains(lines[0], CardType) then
      match AfterFirst(lines[0], ':')
      case Some(rest) => Strip(rest)
      case None => Unknown
    else NameFromLines(lines[1..])
  }

  /** `get_device_name`, given what `v4l2-ctl --info` printed. */
  function DeviceNameOf(info: Option<string>): (name: string)
    ensures name != Unknown ==> info.Some? && exists line :: line in Split(info.value, '\n') && Contains(line, CardType)
  {
    match info
    case None => Unknown
    case Some(out) => NameFromLines(Split(out, '\n'))
  }

  /** The name comes from the first line that mentions `Card type`. */
  lemma {:induction false} NameFromFirstCardLine(lines: seq<string>, i: nat)
    requires i < |lines| && Contains(lines[i], CardType)
    requires forall j | 0 <= j < i :: !Contains(lines[j], CardType)
    ensures NameFromLines(lines) ==
      match AfterFirst(lines[i], ':') case Some(rest) => Strip(rest) case None => Unknown
    decreases i
  {
    if i > 0 {
      assert !Contains(lines[0], CardType);
      NameFromFirstCardLine(lines[1..], i - 1);
    }
  }

  lemma {:induction false} NameWithoutCardLine(lines: seq<string>)
    requires forall l | l in lines :: !Contains(l, CardType)
    ensures NameFromLines(lines) == Unknown
    decreases |lines|
  {
    if lines != [] {
      assert lines[0] in lines;
      assert forall l | l in lines[1..] :: l in lines;
      NameWithoutCardLine(lines[1..]);
    }
  }

  /** `get_device_name`'s loop over the lines, with its early returns. */
  method GetDeviceName(info: Option<string>) returns (name: string)
    ensures name == DeviceNameOf(info)
  {
    if info.None? {
      return Unknown;
    }
    var lines := Split(info.value, '\n');
    var i := 0;
    while i < |lines|
      invariant i <= |lines|
      invariant NameFromLines(lines[i..]) == NameFromLines(lines)
    {
      if Contains(lines[i], CardType) {
        var rest := AfterFirst(lines[i], ':');
        if rest.None? {
          return Unknown;
        }
        return Strip(rest.value);
      }
      assert lines[i..][1..] == lines[i + 1..];
      i := i + 1;
    }
    return Unknown;
  }

  // ---------------------------------------------------------------------------
  // The camera drop-down
  // ---------------------------------------------------------------------------

  /** A drop-down entry: its text and the device path it carries, if any. */
  datatype CameraItem = CameraItem(text: string, data: Option<string>)

  const NoCameras := CameraItem("No cameras detected", None)
  const DetectionError := CameraItem("Error detecting cameras", None)

  function DeviceItem(device: string, name: string): CameraItem {
    CameraItem(device + " (" + name + ")", Some(device))
  }

  /** What `v4l2-ctl -d <path> --info` printed, for each device path
      whose command succeeded. */
  type InfoOutputs = map<string, string>

  /** The output for one device, `None` when its command raised. */
  function InfoFor(info: InfoOutputs, device: string): Option<string> {
    if device in info then Some(info[device]) else None
  }

  /** The name `get_device_name` gives each device. */
  function DeviceNames(devices: seq<string>, info: InfoOutputs): (names: seq<string>)
    ensures |names| == |devices|
  {
    seq(|devices|, i requires 0 <= i < |devices| => DeviceNameOf(InfoFor(info, devices[i])))
  }

  /** An entry per device, in order, each with its name. */
  function DeviceItems(devices: seq<string>, names: seq<string>): (items: seq<CameraItem>)
    requires |names| == |devices|
    ensures |items| == |devices|
    decreases |devices|
  {
    if devices == [] then []
    else
      var n := |devices| - 1;
      DeviceItems(devices[..n], names[..n]) + [DeviceItem(devices[n], names[n])]
  }

  /** The entries `detect_cameras` adds, given the scan's output (`None` when
      the scan raised) and what `v4l2-ctl --info` prints for each device. */
  function CameraItems(scan: Option<string>, info: InfoOutputs): (items: seq<CameraItem>)
    ensures |items| >= 1
  {
    match scan
    case None => [DetectionError]
    case Some(out) =>
      var devices := DeviceList(out);
      if devices == [] then [NoCameras] else DeviceItems(devices, DeviceNames(devices, info))
  }

  /** The device paths the entries carry, in order. */
  function CarriedDevices(items: seq<CameraItem>): seq<string>
    decreases |items|
  {
    if items == [] then []
    else
      var last := match items[|items| - 1].data case Some(d) => [d] case None => [];
      CarriedDevices(items[..|items| - 1]) + last
  }

  /** The device of the first entry `detect_cameras` adds: the first device
      listed, if any. */
  function FirstDevice(scan: Option<string>): Option<string> {
    match scan
    case None => None
    case Some(out) =>
      var devices := DeviceList(out);
      if devices == [] then None else Some(devices[0])
  }

  /** The first entry carries the first device, a non-empty path, or nothing
      when there is no device. */
  lemma CameraItemsFirst(scan: Option<string>, info: InfoOutputs)
    ensures |CameraItems(scan, info)| >= 1
    ensures CameraItems(scan, info)[0].data == FirstDevice(scan)
    ensures FirstDevice(scan).Some? ==> FirstDevice(scan).value != []
  {
    if scan.Some? {
      var devices := DeviceList(scan.value);
      if devices != [] {
        DeviceItemsAt(devices, DeviceNames(devices, info), 0);
        DeviceListEntries(scan.value);
        assert devices[0] in devices;
      }
    }
  }

  /** Entry `i` is device `i` with name `i`. */
  lemma {:induction false} DeviceItemsAt(devices: seq<string>, names: seq<string>, i: nat)
    requires |names| == |devices| && i < |devices|
    ensures |DeviceItems(devices, names)| == |devices|
    ensures DeviceItems(devices, names)[i] == DeviceItem(devices[i], names[i])
    decreases |devices|
  {
    var n := |devices| - 1;
    if i < n {
      DeviceItemsAt(devices[..n], names[..n], i);
    } else {
      CarriedDevicesOfItems(devices[..n], names[..n]);
    }
  }

  /** At least one entry is added; the entries that carry a device carry
      exactly the scanned devices, in order, one entry each; when the scan
      failed the single entry is the error entry, and when it listed no
      device the single entry is the no-cameras entry. */
  lemma CameraItemsCarryDevices(scan: Option<string>, info: InfoOutputs)
    ensures |CameraItems(scan, info)| >= 1
    ensures CarriedDevices(CameraItems(scan, info)) == if scan.Some? then DeviceList(scan.value) else []
    ensures scan.None? ==> CameraItems(scan, info) == [DetectionError]
    ensures scan.Some? && DeviceList(scan.value) == [] ==> CameraItems(scan, info) == [NoCameras]
    ensures scan.Some? && DeviceList(scan.value) != [] ==>
      |CameraItems(scan, info)| == |DeviceList(scan.value)|
  {
    if scan.Some? {
      var devices := DeviceList(scan.value);
      if devices != [] {
        CarriedDevicesOfItems(devices, DeviceNames(devices, info));
      }
    }
  }

  lemma {:induction false} CarriedDevicesOfItems(devices: seq<string>, names: seq<string>)
    requires |names| == |devices|
    ensures |DeviceItems(devices, names)| == |devices|
    ensures CarriedDevices(DeviceItems(devices, names)) == devices
    decreases |devices|
  {
    if devices != [] {
      var n := |devices| - 1;
      var init := DeviceItems(devices[..n], names[..n]);
      CarriedDevicesOfItems(devices[..n], names[..n]);
      CarriedDevicesAppend(init, DeviceItem(devices[n], names[n]));
      assert devices[..n] + [devices[n]] == devices;
    }
  }

  lemma CarriedDevicesAppend(items: seq<CameraItem>, item: CameraItem)
    ensures CarriedDevices(items + [item]) ==
      CarriedDevices(items) + match item.data case Some(d) => [d] case None => []
  {
    assert (items + [item])[..|items|] == items;
  }

  // ---------------------------------------------------------------------------
  // set_device: `int(device.replace('/dev/video', ''))`
  // ---------------------------------------------------------------------------

  const VideoPrefix := "/dev/video"

  /** The device number of a path; `None` where `int()` raises `ValueError`,
      as it does for the bare prefix, which leaves `int('')`. */
  function DeviceNumber(path: string): (n: Option<int>)
    ensures path == VideoPrefix ==> n == None
  {
    var digits := ReplaceAll(path, VideoPrefix, "");
    assert path == VideoPrefix ==> digits == [] by {
      if path == VideoPrefix {
        assert VideoPrefix[..|VideoPrefix|] == VideoPrefix && VideoPrefix[|VideoPrefix|..] == [];
      }
    }
    PyInt(digits)
  }

  /** `/dev/videoN` is device `N`. */
  lemma DeviceNumberOfVideoPath(n: nat)
    ensures DeviceNumber(VideoPrefix + ShowNat(n)) == Some(n)
  {
    var digits := ShowNat(n);
    var path := VideoPrefix + digits;
    assert path[..|VideoPrefix|] == VideoPrefix && path[|VideoPrefix|..] == digits;
    assert '/' !in digits by {
      forall k | 0 <= k < |digits| ensures digits[k] != '/' { assert IsDigit(digits[k]); }
    }
    MissingCharNotContained(digits, VideoPrefix, 0);
    ReplaceAllMissing(digits, VideoPrefix, "");
    assert ReplaceAll(path, VideoPrefix, "") == digits;
    PyIntNatural(n);
  }
}
