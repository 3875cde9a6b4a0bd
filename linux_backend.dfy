/**
 * `cameras_generator` (cv2_enumerate_cameras/linux_backend.py:62-99): turns
 * candidate device paths into camera descriptors. Everything it asks of the
 * machine (the capability probe, `os.path.exists`, `read_line`,
 * `os.path.realpath`) is given as a `Host`, so the model performs the same
 * lookups in the same order as the source.
 */
module LinuxBackend {
  import opened Wrappers
  import opened Numerals
  import opened PosixPath
  import opened CaptureCheck
  import opened Filter

  /** Fallback values of `cv2.CAP_GSTREAMER` and `cv2.CAP_V4L2` (lines 11-14). */
  const CapGStreamer: int := 1800
  const CapV4L2: int := 200
  const SupportedBackends: seq<int> := [CapGStreamer, CapV4L2]

  const SysClassVideo := "/sys/class/video4linux/"

  /** What the enumerator can observe of the machine. */
  datatype Host = Host(
    probe: string -> Probe,             // `v4l2-ctl --device=/dev/<name> --info`, by device name
    pathExists: string -> bool,         // `os.path.exists`
    readLine: string -> Option<string>, // `read_line`: first line, stripped; None on IOError
    realpath: string -> string)         // `os.path.realpath`

  /** `CameraInfo(index, name, path, vid, pid, apiPreference)`; the tag's type is the caller's. */
  datatype CameraInfo<A> = CameraInfo(
    index: nat,
    name: Option<string>,
    path: string,
    vid: Option<nat>,
    pid: Option<nat>,
    apiPreference: A)   // the caller's tag, passed through unchanged

  /** An id line that `read_line` returns is plain hexadecimal (what `int(x, 16)` parses without raising). */
  predicate WellFormedId(line: Option<string>) {
    line.Some? ==> IsHex(line.value)
  }


  /**
   * Lines 65-68: the index is `int(device_name[5:])` when that suffix is
   * non-empty decimal digits; what the first five characters are is not examined.
   */
  function ParseIndex(deviceName: string): (r: Option<nat>)
    ensures r.Some? <==> |deviceName| > 5 && IsDecimal(deviceName[5..])
    ensures r.Some? ==> r.value == ValueOf(10, deviceName[5..])
  {
    var suffix := if |deviceName| <= 5 then "" else deviceName[5..];
    if IsDecimal(suffix) then Some(ValueOf(10, suffix)) else None
  }

  /** Lines 89-90: a resolved path naming a USB interface (a ':' in its last component) is replaced by its parent. */
  function UsbDevicePath(resolved: string): string {
    if ':' in Basename(resolved) then Dirname(resolved) else resolved
  }

  /** Lines 94-97: an id line that was read is parsed as hexadecimal; `None` stays `None`. */
  function ParseId(line: Option<string>): (r: Option<nat>)
    requires WellFormedId(line)
    ensures r.Some? <==> line.Some?
    ensures r.Some? ==> r.value < Pow(16, |line.value|)
  {
    match line
    case None => None
    case Some(text) =>
      ValueBelowPow(16, text);
      Some(ValueOf(16, text))
  }

  function VideoDevicePath(deviceName: string): string {
    SysClassVideo + deviceName
  }

  /** Lines 75-80: the name file's line if the file exists (None if it cannot be read), else the device name. */
  function DisplayName(host: Host, deviceName: string): Option<string> {
    var namePath := Join(VideoDevicePath(deviceName), "name");
    if host.pathExists(namePath) then host.readLine(namePath) else Some(deviceName)
  }

  /** Lines 83-97: vendor and product id, both `None` without a `device` link. */
  function UsbIds(host: Host, videoDevicePath: string): (Option<nat>, Option<nat>)
    requires IdLinesWellFormed(host, videoDevicePath)
  {
    var link := Join(videoDevicePath, "device");
    if !host.pathExists(link) then (None, None)
    else
      var usb := UsbDevicePath(host.realpath(link));
      (ParseId(host.readLine(Join(usb, "idVendor"))), ParseId(host.readLine(Join(usb, "idProduct"))))
  }

  /** A candidate survives both filters: a numeric suffix and a device that can capture. */
  predicate Accepted(host: Host, path: string) {
    var deviceName := Basename(path);
    ParseIndex(deviceName).Some? && CanCapture(host.probe(deviceName))
  }

  /**
   * The id files lines 92-93 read for a device's sysfs directory, when it has a
   * `device` link, hold hexadecimal digits if they can be read.
   */
  predicate IdLinesWellFormed(host: Host, videoDevicePath: string) {
    var link := Join(videoDevicePath, "device");
    host.pathExists(link) ==>
      var usb := UsbDevicePath(host.realpath(link));
      WellFormedId(host.readLine(Join(usb, "idVendor"))) &&
      WellFormedId(host.readLine(Join(usb, "idProduct")))
  }

  /** Only accepted candidates get their id files read. */
  predicate CandidateIdsWellFormed(host: Host, path: string) {
    Accepted(host, path) ==> IdLinesWellFormed(host, VideoDevicePath(Basename(path)))
  }

  /** The id files the enumeration reads for these candidates are well formed. */
  predicate IdLinesHex(host: Host, paths: seq<string>) {
    forall path :: path in paths ==> CandidateIdsWellFormed(host, path)
  }

  /** The descriptor one candidate path yields, if any (one iteration of the loop of lines 63-99). */
  function Describe<A>(host: Host, path: string, apiPreference: A): (r: Option<CameraInfo<A>>)
    requires CandidateIdsWellFormed(host, path)
    ensures r.Some? <==> Accepted(host, path)
    ensures r.Some? ==> r.value.path == path && r.value.apiPreference == apiPreference
    ensures r.Some? ==> Some(r.value.index) == ParseIndex(Basename(path))
  {
    var deviceName := Basename(path);
    match ParseIndex(deviceName)
    case None => None
    case Some(index) =>
      if !CanCapture(host.probe(deviceName)) then None
      else
        var (vid, pid) := UsbIds(host, VideoDevicePath(deviceName));
        Some(CameraInfo(index, DisplayName(host, deviceName), path, vid, pid, apiPreference))
  }

  /**
   * The name and ids of a descriptor: the name file's line when the file exists
   * (`None` when it cannot be read), else the device name; no ids without a
   * `device` link, else the parsed id lines of the directory the link
   * resolves to, one level up from an interface node.
   */
  lemma DescribeFields<A>(host: Host, path: string, apiPreference: A)
    requires CandidateIdsWellFormed(host, path) && Accepted(host, path)
    ensures var namePath := Join(VideoDevicePath(Basename(path)), "name");
      Describe(host, path, apiPreference).value.name ==
        if host.pathExists(namePath) then host.readLine(namePath) else Some(Basename(path))
    ensures !host.pathExists(Join(VideoDevicePath(Basename(path)), "device")) ==>
      Describe(host, path, apiPreference).value.vid.None? && Describe(host, path, apiPreference).value.pid.None?
    ensures host.pathExists(Join(VideoDevicePath(Basename(path)), "device")) ==>
      var usb := UsbDevicePath(host.realpath(Join(VideoDevicePath(Basename(path)), "device")));
      WellFormedId(host.readLine(Join(usb, "idVendor"))) &&
      WellFormedId(host.readLine(Join(usb, "idProduct"))) &&
      Describe(host, path, apiPreference).value.vid == ParseId(host.readLine(Join(usb, "idVendor"))) &&
      Describe(host, path, apiPreference).value.pid == ParseId(host.readLine(Join(usb, "idProduct")))
  {
  }

  /** What each candidate leads to, position by position. */
  function Outcomes<A>(host: Host, paths: seq<string>, apiPreference: A): (rs: seq<Option<CameraInfo<A>>>)
    requires IdLinesHex(host, paths)
    ensures |rs| == |paths|
    ensures forall i :: 0 <= i < |paths| ==> rs[i] == Describe(host, paths[i], apiPreference)
  {
    seq(|paths|, i requires 0 <= i < |paths| => Describe(host, paths[i], apiPreference))
  }

  /** The descriptors the generator yields for the candidates, in order. */
  function Enumerate<A>(host: Host, paths: seq<string>, apiPreference: A): seq<CameraInfo<A>>
    requires IdLinesHex(host, paths)
  {
    Yielded(Outcomes(host, paths, apiPreference))
  }

  /** Which candidates are accepted, position by position. */
  function Verdicts(host: Host, paths: seq<string>): (flags: seq<bool>)
    ensures |flags| == |paths|
    ensures forall i :: 0 <= i < |paths| ==> flags[i] == Accepted(host, paths[i])
  {
    seq(|paths|, i requires 0 <= i < |paths| => Accepted(host, paths[i]))
  }

  /** Lines 83-97: the step-by-step lookup of the USB ids for a device's sysfs directory. */
  method ReadUsbIds(host: Host, videoDevicePath: string) returns (vid: Option<nat>, pid: Option<nat>)
    requires IdLinesWellFormed(host, videoDevicePath)
    ensures (vid, pid) == UsbIds(host, videoDevicePath)
  {
    vid := None;
    pid := None;
    var usbDevicePath := Join(videoDevicePath, "device");
    if host.pathExists(usbDevicePath) {
      usbDevicePath := host.realpath(usbDevicePath);
      if ':' in Basename(usbDevicePath) {
        usbDevicePath := Dirname(usbDevicePath);
      }
      var vidLine := host.readLine(Join(usbDevicePath, "idVendor"));
      var pidLine := host.readLine(Join(usbDevicePath, "idProduct"));
      if vidLine.Some? {
        vid := Some(ValueOf(16, vidLine.value));
      }
      if pidLine.Some? {
        pid := Some(ValueOf(16, pidLine.value));
      }
    }
  }

  /**
   * One pass of the loop of lines 63-99 for one candidate path: each `continue`
   * of the source is a `None` here, the `yield` a `Some`.
   */
  method DescribeCandidate<A>(host: Host, path: string, apiPreference: A) returns (r: Option<CameraInfo<A>>)
    requires CandidateIdsWellFormed(host, path)
    ensures r == Describe(host, path, apiPreference)
  {
    var deviceName := Basename(path);
    var suffix := if |deviceName| <= 5 then "" else deviceName[5..];
    if !IsDecimal(suffix) {
      return None;
    }
    var index := ValueOf(10, suffix);

    var capable := DeviceCanCaptureVideo(host.probe(deviceName));
    if !capable {
      return None;
    }

    var videoDevicePath := SysClassVideo + deviceName;
    var videoDeviceNamePath := Join(videoDevicePath, "name");
    var name: Option<string>;
    if host.pathExists(videoDeviceNamePath) {
      name := host.readLine(videoDeviceNamePath);
    } else {
      name := Some(deviceName);
    }

    var vid, pid := ReadUsbIds(host, videoDevicePath);
    return Some(CameraInfo(index, name, path, vid, pid, apiPreference));
  }

  /** `cameras_generator`, collecting what it yields. */
  method CamerasGenerator<A>(host: Host, paths: seq<string>, apiPreference: A)
    returns (cameras: seq<CameraInfo<A>>)
    requires IdLinesHex(host, paths)
    ensures cameras == Enumerate(host, paths, apiPreference)
  {
    ghost var outcomes := Outcomes(host, paths, apiPreference);
    cameras := [];
    for i := 0 to |paths|
      invariant cameras == Yielded(outcomes[..i])
    {
      YieldedStep(outcomes, i);
      var camera := DescribeCandidate(host, paths[i], apiPreference);
      if camera.Some? {
        cameras := cameras + [camera.value];
      }
    }
    assert outcomes[..|paths|] == outcomes;
  }

  // ---- The name suffix ----

  /** The first five characters are never inspected: only the rest decides. */
  lemma PrefixIgnored(a: string, b: string, rest: string)
    requires |a| == 5 && |b| == 5
    ensures ParseIndex(a + rest) == ParseIndex(b + rest)
  {
    assert (a + rest)[5..] == rest && (b + rest)[5..] == rest;
  }

  /** Any five-character prefix before a rendered number gives that number back as the index. */
  lemma IndexRoundTrip(prefix: string, n: nat)
    requires |prefix| == 5
    ensures ParseIndex(prefix + Render(10, n)) == Some(n)
  {
    ValueOfRender(10, n);
    assert (prefix + Render(10, n))[5..] == Render(10, n);
  }

  // ---- The USB path and ids ----

  /** A resolved link ending in an interface component (with ':') is read from the parent directory. */
  lemma InterfaceAscends(dir: string, component: string)
    requires dir != [] && dir[|dir| - 1] != '/'
    requires '/' !in component && ':' in component
    ensures UsbDevicePath(Join(dir, component)) == dir
  {
    BasenameDirnameOfJoin(dir, component);
  }

  /** Without a ':' in its last component the resolved path is used as it is. */
  lemma DeviceNodeKept(dir: string, component: string)
    requires dir != [] && dir[|dir| - 1] != '/'
    requires '/' !in component && ':' !in component
    ensures UsbDevicePath(Join(dir, component)) == Join(dir, component)
  {
    BasenameDirnameOfJoin(dir, component);
  }

  /** An id the kernel writes as hexadecimal digits is parsed back to itself. */
  lemma IdRoundTrip(id: nat)
    ensures WellFormedId(Some(Render(16, id)))
    ensures ParseId(Some(Render(16, id))) == Some(id)
  {
    ValueOfRender(16, id);
  }

  /** A four-digit id line gives a 16-bit id. */
  lemma FourDigitIdFits(line: string)
    requires IsHex(line) && |line| == 4
    ensures ParseId(Some(line)).value < 0x1_0000
  {
    assert Pow(16, 4) == 0x1_0000;
  }

  // ---- The enumeration ----

  /**
   * The generator is a filter: its output is, in order, the descriptors of the
   * accepted candidates and of no others.
   */
  lemma EnumerateIsFilter<A>(host: Host, paths: seq<string>, apiPreference: A)
    requires IdLinesHex(host, paths)
    ensures |Enumerate(host, paths, apiPreference)| == |Positions(Verdicts(host, paths))|
    ensures forall k :: 0 <= k < |Positions(Verdicts(host, paths))| ==>
      Describe(host, paths[Positions(Verdicts(host, paths))[k]], apiPreference) ==
        Some(Enumerate(host, paths, apiPreference)[k])
  {
    var rs := Outcomes(host, paths, apiPreference);
    YieldedAtPositions(rs);
    assert Present(rs) == Verdicts(host, paths);
  }

  /**
   * Every descriptor comes from a candidate path that passed the suffix check
   * and the capture check; its index is that suffix's value, its
   * apiPreference is the caller's, and its name and ids are those
   * `Describe` states for that path.
   */
  lemma EmittedWereAccepted<A>(host: Host, paths: seq<string>, apiPreference: A, k: nat)
    requires IdLinesHex(host, paths)
    requires k < |Enumerate(host, paths, apiPreference)|
    ensures var c := Enumerate(host, paths, apiPreference)[k];
      c.path in paths && Accepted(host, c.path) &&
      ParseIndex(Basename(c.path)) == Some(c.index) && c.apiPreference == apiPreference
    ensures var c := Enumerate(host, paths, apiPreference)[k];
      Describe(host, c.path, apiPreference) == Some(c)
  {
    EnumerateIsFilter(host, paths, apiPreference);
  }

  /** A candidate whose suffix is not numeric, or whose probe rules out capture, yields nothing. */
  lemma RejectedNeverEmitted<A>(host: Host, paths: seq<string>, apiPreference: A, path: string)
    requires IdLinesHex(host, paths)
    requires !Accepted(host, path)
    ensures forall c :: c in Enumerate(host, paths, apiPreference) ==> c.path != path
  {
    forall c | c in Enumerate(host, paths, apiPreference)
      ensures c.path != path
    {
      var k :| 0 <= k < |Enumerate(host, paths, apiPreference)| && Enumerate(host, paths, apiPreference)[k] == c;
      EmittedWereAccepted(host, paths, apiPreference, k);
    }
  }

  /** Appending a rejected candidate to the list leaves the output as it was. */
  lemma RejectedAppendedIsSkipped<A>(host: Host, paths: seq<string>, path: string, apiPreference: A)
    requires IdLinesHex(host, paths + [path]) && !Accepted(host, path)
    ensures Enumerate(host, paths + [path], apiPreference) == Enumerate(host, paths, apiPreference)
  {
    assert IdLinesHex(host, [path]);
    EnumerateAppend(host, paths, [path], apiPreference);
    var rs := Outcomes(host, [path], apiPreference);
    assert rs[0].None?;
    YieldedStep(rs, 0);
    assert rs[..1] == rs && rs[..0] == [];
  }

  /** Every accepted candidate is emitted, in the position its rank among accepted candidates gives it. */
  lemma AcceptedAreEmitted<A>(host: Host, paths: seq<string>, apiPreference: A, i: nat)
    requires IdLinesHex(host, paths)
    requires i < |paths| && Accepted(host, paths[i])
    ensures Describe(host, paths[i], apiPreference).value in Enumerate(host, paths, apiPreference)
  {
    EnumerateIsFilter(host, paths, apiPreference);
    var ks := Positions(Verdicts(host, paths));
    var k :| 0 <= k < |ks| && ks[k] == i;
    assert Enumerate(host, paths, apiPreference)[k] == Describe(host, paths[i], apiPreference).value;
  }

  /** Enumerating a concatenation enumerates the parts one after the other: the order of candidates is kept. */
  lemma EnumerateAppend<A>(host: Host, a: seq<string>, b: seq<string>, apiPreference: A)
    requires IdLinesHex(host, a) && IdLinesHex(host, b)
    ensures Enumerate(host, a + b, apiPreference) ==
      Enumerate(host, a, apiPreference) + Enumerate(host, b, apiPreference)
  {
    var ra, rb := Outcomes(host, a, apiPreference), Outcomes(host, b, apiPreference);
    var rab := Outcomes(host, a + b, apiPreference);
    forall i | 0 <= i < |a + b|
      ensures rab[i] == (ra + rb)[i]
    {
      if i < |a| {
        assert (a + b)[i] == a[i];
      } else {
        assert (a + b)[i] == b[i - |a|];
      }
    }
    assert rab == ra + rb;
    YieldedAppend(ra, rb);
  }
}
