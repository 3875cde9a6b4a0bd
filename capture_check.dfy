/**
 * `device_can_capture_video` (cv2_enumerate_cameras/linux_backend.py:25-47):
 * decides from the text `v4l2-ctl --info` prints whether a device node can
 * capture video. The subprocess itself is an input: it either failed with a
 * non-zero exit (Python's CalledProcessError) or produced a decoded report.
 */
module CaptureCheck {
  import opened Wrappers
  import opened Strings

  const DeviceCapsHeader := "\tDevice Caps"
  const CapabilitiesHeader := "\tCapabilities"
  /** Sub-items of a section are indented by two tabs. */
  const ItemIndent := "\t\t"
  const CaptureMarker := "Video Capture"

  datatype Probe =
    | ProbeFailed          // `v4l2-ctl` exited with a non-zero status
    | Report(text: string) // its standard output, decoded

  /** The index of the first line starting with prefix (the `next(...)` of lines 32-33). */
  function FirstStartingWith(lines: seq<string>, prefix: string): (r: Option<nat>)
    ensures r.Some? ==> r.value < |lines| && StartsWith(lines[r.value], prefix)
    ensures r.Some? ==> forall k :: 0 <= k < r.value ==> !StartsWith(lines[k], prefix)
    ensures r.None? ==> forall k :: 0 <= k < |lines| ==> !StartsWith(lines[k], prefix)
  {
    if lines == [] then None
    else if StartsWith(lines[0], prefix) then Some(0)
    else match FirstStartingWith(lines[1..], prefix)
      case None => None
      case Some(i) => Some(i + 1)
  }

  /**
   * The header the scan starts after: the first "Device Caps" line wherever
   * any "Capabilities" line is, else the first "Capabilities" line, else none.
   */
  function HeaderIndex(lines: seq<string>): Option<nat>
  {
    var deviceCaps := FirstStartingWith(lines, DeviceCapsHeader);
    if deviceCaps.Some? then deviceCaps else FirstStartingWith(lines, CapabilitiesHeader)
  }

  /** The header choice of lines 32-39, stated by the first occurrences of the two headers. */
  lemma HeaderChoice(lines: seq<string>)
    ensures HeaderIndex(lines).Some? ==> HeaderIndex(lines).value < |lines|
    ensures (exists i :: 0 <= i < |lines| && StartsWith(lines[i], DeviceCapsHeader)) ==>
      HeaderIndex(lines).Some? && StartsWith(lines[HeaderIndex(lines).value], DeviceCapsHeader) &&
      forall k :: 0 <= k < HeaderIndex(lines).value ==> !StartsWith(lines[k], DeviceCapsHeader)
    ensures ((forall i :: 0 <= i < |lines| ==> !StartsWith(lines[i], DeviceCapsHeader)) &&
             (exists i :: 0 <= i < |lines| && StartsWith(lines[i], CapabilitiesHeader))) ==>
      HeaderIndex(lines).Some? && StartsWith(lines[HeaderIndex(lines).value], CapabilitiesHeader) &&
      forall k :: 0 <= k < HeaderIndex(lines).value ==> !StartsWith(lines[k], CapabilitiesHeader)
    ensures HeaderIndex(lines).None? <==>
      forall i :: 0 <= i < |lines| ==>
        !StartsWith(lines[i], DeviceCapsHeader) && !StartsWith(lines[i], CapabilitiesHeader)
  {
  }

  /**
   * The scan of lines 41-47 from position k: the marker wins, a line that is
   * not a sub-item ends the section, and running out of lines is a "no".
   */
  predicate ScanFrom(lines: seq<string>, k: nat)
    decreases |lines| - k
  {
    if k >= |lines| then false
    else if Contains(lines[k], CaptureMarker) then true
    else if !StartsWith(lines[k], ItemIndent) then false
    else ScanFrom(lines, k + 1)
  }

  /**
   * Reference meaning of the scan after header s: some later line holds the
   * marker and every line strictly between them is indented as a sub-item.
   */
  predicate MarkerInSection(lines: seq<string>, s: nat) {
    exists j :: s < j < |lines| && Contains(lines[j], CaptureMarker) &&
      forall m :: s < m < j ==> StartsWith(lines[m], ItemIndent)
  }

  /** The verdict on a report already split into lines. */
  predicate CaptureFromLines(lines: seq<string>) {
    match HeaderIndex(lines)
    case None => true
    case Some(s) => ScanFrom(lines, s + 1)
  }

  /** The verdict of `device_can_capture_video`: a failed probe is a "yes". */
  predicate CanCapture(probe: Probe) {
    match probe
    case ProbeFailed => true
    case Report(text) => CaptureFromLines(Split(text, '\n'))
  }

  /** The generator expressions of lines 32-33, as a loop. */
  method FindFirst(lines: seq<string>, prefix: string) returns (r: Option<nat>)
    ensures r == FirstStartingWith(lines, prefix)
  {
    var k := 0;
    while k < |lines|
      invariant 0 <= k <= |lines|
      invariant forall m :: 0 <= m < k ==> !StartsWith(lines[m], prefix)
    {
      if StartsWith(lines[k], prefix) {
        return Some(k);
      }
      k := k + 1;
    }
    return None;
  }

  /** `device_can_capture_video`, with the probe's outcome given. */
  method DeviceCanCaptureVideo(probe: Probe) returns (capable: bool)
    ensures probe.ProbeFailed? ==> capable
    ensures capable == CanCapture(probe)
  {
    if probe.ProbeFailed? {
      return true;
    }
    var lines := Split(probe.text, '\n');
    var capabilitiesIndex := FindFirst(lines, CapabilitiesHeader);
    var deviceCapsIndex := FindFirst(lines, DeviceCapsHeader);
    var searchIndex: nat;
    if deviceCapsIndex.Some? {
      searchIndex := deviceCapsIndex.value;
    } else if capabilitiesIndex.Some? {
      searchIndex := capabilitiesIndex.value;
    } else {
      return true;
    }
    assert HeaderIndex(lines) == Some(searchIndex);
    var k := searchIndex + 1;
    while k < |lines|
      invariant searchIndex + 1 <= k <= |lines|
      invariant ScanFrom(lines, k) == ScanFrom(lines, searchIndex + 1)
    {
      if Contains(lines[k], CaptureMarker) {
        return true;
      } else if !StartsWith(lines[k], ItemIndent) {
        return false;
      }
      k := k + 1;
    }
    return false;
  }

  /** The recursive scan agrees with its reference meaning, in both directions. */
  lemma {:induction false} ScanFromMeaning(lines: seq<string>, s: nat)
    ensures ScanFrom(lines, s + 1) <==> MarkerInSection(lines, s)
    decreases |lines| - s
  {
    var k := s + 1;
    if k < |lines| && !Contains(lines[k], CaptureMarker) && StartsWith(lines[k], ItemIndent) {
      ScanFromMeaning(lines, k);
      if MarkerInSection(lines, k) {
        var j :| k < j < |lines| && Contains(lines[j], CaptureMarker) &&
          forall m :: k < m < j ==> StartsWith(lines[m], ItemIndent);
        assert s < j;
      }
      if MarkerInSection(lines, s) {
        var j :| s < j < |lines| && Contains(lines[j], CaptureMarker) &&
          forall m :: s < m < j ==> StartsWith(lines[m], ItemIndent);
        assert j != k;
        assert MarkerInSection(lines, k);
      }
    } else if k < |lines| && Contains(lines[k], CaptureMarker) {
      assert MarkerInSection(lines, s);
    }
  }

  /**
   * The whole decision on a report: capture is supported exactly when no
   * header is present, or the marker appears within the chosen header's section.
   */
  lemma CaptureFromLinesMeaning(lines: seq<string>)
    ensures CaptureFromLines(lines) <==>
      HeaderIndex(lines).None? || MarkerInSection(lines, HeaderIndex(lines).value)
  {
    if HeaderIndex(lines).Some? {
      ScanFromMeaning(lines, HeaderIndex(lines).value);
    }
  }

  /** A section whose lines run out, all indented and none with the marker, means "no". */
  lemma ExhaustedSectionRejects(lines: seq<string>, s: nat)
    requires HeaderIndex(lines) == Some(s)
    requires forall j :: s < j < |lines| ==>
      !Contains(lines[j], CaptureMarker) && StartsWith(lines[j], ItemIndent)
    ensures !CaptureFromLines(lines)
  {
    ScanFromMeaning(lines, s);
  }

  /** A marker on the line right after the header counts even when that line is not indented. */
  lemma UnindentedMarkerCounts(lines: seq<string>, s: nat)
    requires HeaderIndex(lines) == Some(s)
    requires s + 1 < |lines| && Contains(lines[s + 1], CaptureMarker)
    ensures CaptureFromLines(lines)
  {
  }
}
