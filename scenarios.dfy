/** Concrete situations the enumerator is meant to handle, worked through on the model. */
module Scenarios {
  import opened Wrappers
  import opened Numerals
  import opened Strings
  import opened PosixPath
  import opened CaptureCheck
  import opened LinuxBackend
  import opened Filter

  /** A report whose "Device Caps" section lists only "Video Output" rules the device out,
      even though the hardware-wide "Capabilities" section lists "Video Capture". */
  lemma DeviceCapsWithoutCapture()
    ensures !CaptureFromLines(["Driver Info:", "\tCapabilities     : 0x84a00001", "\t\tVideo Capture",
      "\tDevice Caps      : 0x04200001", "\t\tVideo Output", "\t\tStreaming", "Priority: 2"])
  {
    var lines := ["Driver Info:", "\tCapabilities     : 0x84a00001", "\t\tVideo Capture",
      "\tDevice Caps      : 0x04200001", "\t\tVideo Output", "\t\tStreaming", "Priority: 2"];
    NotStartsWith(lines[0], DeviceCapsHeader, 0);
    NotStartsWith(lines[1], DeviceCapsHeader, 1);
    NotStartsWith(lines[2], DeviceCapsHeader, 1);
    assert StartsWith(lines[3], DeviceCapsHeader);
    assert HeaderIndex(lines) == Some(3);
    NotContains(lines[4], CaptureMarker);
    NotContains(lines[5], CaptureMarker);
    NotContains(lines[6], CaptureMarker);
    NotStartsWith(lines[6], ItemIndent, 0);
  }

  /** A "Capabilities" section listing "Video Capture", with no "Device Caps", admits the device. */
  lemma CapabilitiesWithCapture()
    ensures CaptureFromLines(["Driver Info:", "\tCapabilities     : 0x04200001", "\t\tVideo Capture", "Priority: 2"])
  {
    var lines := ["Driver Info:", "\tCapabilities     : 0x04200001", "\t\tVideo Capture", "Priority: 2"];
    NotStartsWith(lines[0], DeviceCapsHeader, 0);
    NotStartsWith(lines[1], DeviceCapsHeader, 1);
    NotStartsWith(lines[2], DeviceCapsHeader, 1);
    NotStartsWith(lines[3], DeviceCapsHeader, 0);
    NotStartsWith(lines[0], CapabilitiesHeader, 0);
    assert StartsWith(lines[1], CapabilitiesHeader);
    assert HeaderIndex(lines) == Some(1);
    assert StartsWith(lines[2][2..], CaptureMarker);
  }

  /** A report with neither header admits the device. */
  lemma NoHeaderFailsOpen()
    ensures CaptureFromLines(["Driver Info:", "\tDriver name      : vivid", "Priority: 2"])
  {
    var lines := ["Driver Info:", "\tDriver name      : vivid", "Priority: 2"];
    NotStartsWith(lines[0], DeviceCapsHeader, 0);
    NotStartsWith(lines[1], DeviceCapsHeader, 2);
    NotStartsWith(lines[2], DeviceCapsHeader, 0);
    NotStartsWith(lines[0], CapabilitiesHeader, 0);
    NotStartsWith(lines[1], CapabilitiesHeader, 1);
    NotStartsWith(lines[2], CapabilitiesHeader, 0);
  }

  /** A candidate `.../videoX` has a non-numeric suffix, so appending it to any candidate
      list (`/dev/video0`, `/dev/video1`, say) changes nothing, whatever the host. */
  lemma NonNumericCandidateSkipped<A>(host: Host, paths: seq<string>, dir: string, apiPreference: A)
    requires IdLinesHex(host, paths + [Join(dir, "videoX")])
    requires dir != [] && dir[|dir| - 1] != '/'
    ensures Enumerate(host, paths + [Join(dir, "videoX")], apiPreference) == Enumerate(host, paths, apiPreference)
  {
    var candidate := Join(dir, "videoX");
    BasenameDirnameOfJoin(dir, "videoX");
    assert "videoX"[5..] == "X";
    RejectedAppendedIsSkipped(host, paths, candidate, apiPreference);
  }

  /** `/dev/video0`, `/dev/video1`, ... `/dev/video<n>` get the index n. */
  lemma NumericCandidateIndexed(n: nat)
    ensures ParseIndex(Basename(Join("/dev", "video" + Render(10, n)))) == Some(n)
  {
    var name := "video" + Render(10, n);
    assert '/' !in name by {
      assert forall i :: 5 <= i < |name| ==> IsDigitOf(10, name[i]);
    }
    BasenameDirnameOfJoin("/dev", name);
    IndexRoundTrip("video", n);
  }

  /** The sysfs directory of a USB device, `1-1` on bus 1; its first interface is `1-1:1.0`. */
  const UsbDevice := "/sys/devices/pci0000:00/0000:00:14.0/usb1/1-1"

  /** The interface node `.../usb1/1-1/1-1:1.0` is replaced by its parent USB device
      `.../usb1/1-1`; only the last component is examined, although earlier ones contain ':' too. */
  lemma InterfaceNodeAscends()
    ensures UsbDevicePath(Join(UsbDevice, "1-1:1.0")) == UsbDevice
  {
    assert '/' !in "1-1:1.0" && ':' in "1-1:1.0";
    assert UsbDevice[|UsbDevice| - 1] == '1';
    InterfaceAscends(UsbDevice, "1-1:1.0");
  }

  /** The id lines "046d" and "0825" give vendor 1133 and product 2085. */
  lemma LogitechIds()
    ensures ParseId(Some("046d")) == Some(1133)
    ensures ParseId(Some("0825")) == Some(2085)
  {
    assert "046d"[..3] == "046" && "046"[..2] == "04" && "04"[..1] == "0" && "0"[..0] == [];
    assert "0825"[..3] == "082" && "082"[..2] == "08" && "08"[..1] == "0";
  }

  /**
   * End to end: a capture device whose `device` link resolves to the interface
   * `1-1:1.0` of `UsbDevice`, with id files "046d" and "0825" there, is
   * described with vendor 1133 and product 2085.
   */
  lemma LogitechCameraIds<A>(host: Host, path: string, apiPreference: A)
    requires CandidateIdsWellFormed(host, path) && Accepted(host, path)
    requires host.pathExists(Join(VideoDevicePath(Basename(path)), "device"))
    requires host.realpath(Join(VideoDevicePath(Basename(path)), "device")) == Join(UsbDevice, "1-1:1.0")
    requires host.readLine(Join(UsbDevice, "idVendor")) == Some("046d")
    requires host.readLine(Join(UsbDevice, "idProduct")) == Some("0825")
    ensures Describe(host, path, apiPreference).value.vid == Some(1133)
    ensures Describe(host, path, apiPreference).value.pid == Some(2085)
  {
    InterfaceNodeAscends();
    LogitechIds();
    DescribeFields(host, path, apiPreference);
  }

  /** A name file that exists but cannot be read leaves the name `None`, not the device name. */
  lemma UnreadableNameIsNone<A>(host: Host, path: string, apiPreference: A)
    requires CandidateIdsWellFormed(host, path) && Accepted(host, path)
    requires host.pathExists(Join(VideoDevicePath(Basename(path)), "name"))
    requires host.readLine(Join(VideoDevicePath(Basename(path)), "name")).None?
    ensures Describe(host, path, apiPreference).value.name.None?
  {
    DescribeFields(host, path, apiPreference);
  }
}
