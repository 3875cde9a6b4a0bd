# Linux camera enumeration, modelled in Dafny

This project models the Linux backend of `cv2_enumerate_cameras`: the routine
that lists video-capture devices with their index, display name, device path,
USB vendor and product ids and the caller's capture API preference.

The routine's decisions are modelled as functions and methods. These are:

- the scan of the `v4l2-ctl --info` report that decides whether a device can
  capture (`CaptureCheck`);
- the parse of the device index from the node's name;
- the step from a USB interface node up to its USB device;
- the hexadecimal id parse;
- the filter-and-emit loop of `cameras_generator` (`LinuxBackend`).

Everything the routine asks of the machine is an input, a `Host` value with four fields:

- `probe`: the outcome of `v4l2-ctl` for each device name;
- `pathExists`: `os.path.exists`;
- `readLine`: `read_line`, that is the first line of a file, stripped, or `None` on `IOError`;
- `realpath`: `os.path.realpath`.

The model looks these up with the same paths and in the same order as the source.

Modules:

- `Wrappers`: `Option`, standing for Python's `None`-or-value.
- `Numerals`: ASCII decimal and hexadecimal numerals. It defines their value and a
  reference renderer, and proves that parsing inverts rendering. It also proves
  the bound that k digits give a value below base^k.
- `PosixPath`: `basename`, `dirname` and `join` as `posixpath` defines them.
- `Strings`: `startswith`, substring `in`, and `split`, with the proof that
  `split` and `join` invert each other.
- `Filter`: a loop that skips some items and yields one value for each other
  item, seen as a sequence of per-item outcomes.
- `CaptureCheck`: `device_can_capture_video`. This is the header choice and the
  section scan, as reference predicates, a method with loops proved equal to
  them, and lemmas that characterise the verdict.
- `LinuxBackend`: the descriptor datatype, the per-candidate decision
  `Describe` and the whole enumeration `Enumerate`. The `cameras_generator`
  loop is proved equal to them, with lemmas on filtering, order, field values
  and completeness.
- `Scenarios`: concrete cases worked through on the model. They cover a "Device Caps"
  section without "Video Capture", a report with no header, `video<n>` and
  `videoX` candidates, an interface node `1-1:1.0`, and the ids `046d`/`0825`.

Two behaviours of the code worth noting:

- If the name file exists but cannot be read, `name` is `None` (line 78). It is
  not the device name.
- Only a non-zero exit of `v4l2-ctl` (`CalledProcessError`) counts as a failed
  probe that admits the device. A missing `v4l2-ctl` raises `FileNotFoundError`,
  which the code does not catch.

## Model

| member | source | states |
|---|---|---|
| Numerals.ValueOfRender | cv2_enumerate_cameras/linux_backend.py:68 | Parsing the reference numeral of n, in base 10 or 16, gives n back. So the digit parse used for `int(...)` is a true inverse of printing. |
| Numerals.ValueBelowPow | cv2_enumerate_cameras/linux_backend.py:94-97 | A numeral of k digits denotes a value below base^k. |
| Numerals.LeadingZeroIgnored | cv2_enumerate_cameras/linux_backend.py:68 | A leading '0' does not change a numeral's value (`video007` has index 7). |
| PosixPath.Basename | cv2_enumerate_cameras/linux_backend.py:65 | `os.path.basename` returns the longest suffix of the path that holds no '/'. |
| PosixPath.BasenameDirnameOfJoin | cv2_enumerate_cameras/linux_backend.py:89-90 | For a directory without a trailing '/' and a slash-free component, `basename(join(d, c)) == c` and `dirname(join(d, c)) == d`. |
| Strings.Split | cv2_enumerate_cameras/linux_backend.py:31 | `split('\n')` yields at least one piece, and no piece holds a newline. |
| Strings.JoinSplit | cv2_enumerate_cameras/linux_backend.py:31 | Joining the pieces of `split(sep)` with sep gives back the original text. |
| Strings.SplitJoin | cv2_enumerate_cameras/linux_backend.py:31 | Splitting the join of separator-free pieces gives back exactly those pieces. |
| CaptureCheck.FirstStartingWith | cv2_enumerate_cameras/linux_backend.py:32-33 | The result is the index of the first line starting with the prefix. It is `None` exactly when no line does. |
| CaptureCheck.HeaderChoice | cv2_enumerate_cameras/linux_backend.py:32-39 | If any line starts with `\tDevice Caps`, the first such line is chosen, wherever `\tCapabilities` lines are. Otherwise the first `\tCapabilities` line is chosen. The result is `None` exactly when neither header is present. |
| CaptureCheck.FindFirst | cv2_enumerate_cameras/linux_backend.py:32-33 | The loop returns the same first index as the reference function. |
| CaptureCheck.DeviceCanCaptureVideo | cv2_enumerate_cameras/linux_backend.py:25-47 | A failed probe gives `True`. Otherwise the loops' verdict equals the reference verdict: the header choice and then the section scan. |
| CaptureCheck.ScanFromMeaning | cv2_enumerate_cameras/linux_backend.py:41-47 | The scan after header s says yes exactly when some line j > s contains `Video Capture` and every line strictly between s and j starts with `\t\t`. Both directions hold. |
| CaptureCheck.CaptureFromLinesMeaning | cv2_enumerate_cameras/linux_backend.py:31-47 | A report admits the device exactly when it has no header, or when the marker lies within the chosen header's section. |
| CaptureCheck.ExhaustedSectionRejects | cv2_enumerate_cameras/linux_backend.py:41-47 | If the lines after the header are all indented and none holds the marker, running out of lines gives `False`. |
| CaptureCheck.UnindentedMarkerCounts | cv2_enumerate_cameras/linux_backend.py:42-45 | The marker is tested before the indentation. So a non-indented line right after the header that contains `Video Capture` still admits the device. |
| LinuxBackend.ParseIndex | cv2_enumerate_cameras/linux_backend.py:65-68 | An index exists exactly when the name is longer than 5 characters and `name[5:]` is all decimal digits. The index is that suffix's decimal value. |
| LinuxBackend.PrefixIgnored | cv2_enumerate_cameras/linux_backend.py:66-68 | The first five characters are never inspected: any two five-character prefixes give the same result. |
| LinuxBackend.IndexRoundTrip | cv2_enumerate_cameras/linux_backend.py:66-68 | Any five characters followed by the decimal numeral of n give index n. |
| LinuxBackend.ParseId | cv2_enumerate_cameras/linux_backend.py:92-97 | An id is present exactly when its line was read. A line of k hex digits gives an id below 16^k. |
| LinuxBackend.IdRoundTrip | cv2_enumerate_cameras/linux_backend.py:94-97 | The hexadecimal numeral of an id parses back to that id. |
| LinuxBackend.FourDigitIdFits | cv2_enumerate_cameras/linux_backend.py:94-97 | A four-digit id line gives a 16-bit id. |
| LinuxBackend.InterfaceAscends | cv2_enumerate_cameras/linux_backend.py:89-90 | A resolved path whose last component contains ':' is replaced by its parent directory. |
| LinuxBackend.DeviceNodeKept | cv2_enumerate_cameras/linux_backend.py:89-90 | A resolved path whose last component has no ':' is used unchanged. |
| LinuxBackend.Describe | cv2_enumerate_cameras/linux_backend.py:63-99 | A candidate yields a descriptor exactly when its suffix is numeric and its capture check passes. The descriptor keeps the path and the caller's apiPreference, and its index is the parsed suffix. |
| LinuxBackend.DescribeFields | cv2_enumerate_cameras/linux_backend.py:75-97 | For an accepted candidate: with a name file, the name is that file's line, `None` when it cannot be read; without one, it is the device name. Without a `device` link, vid and pid are `None`. With one, they are the parsed `idVendor` and `idProduct` lines of the resolved directory, after the step up from an interface node. |
| LinuxBackend.ReadUsbIds | cv2_enumerate_cameras/linux_backend.py:83-97 | Reassigning the USB path, vid and pid step by step gives the reference ids. |
| LinuxBackend.DescribeCandidate | cv2_enumerate_cameras/linux_backend.py:64-99 | One loop pass, with its early exits for `continue`, gives the reference descriptor or none. |
| LinuxBackend.CamerasGenerator | cv2_enumerate_cameras/linux_backend.py:62-99 | The loop over the candidates collects exactly the reference enumeration. |
| Filter.YieldedAtPositions | cv2_enumerate_cameras/linux_backend.py:63-99 | For a loop that skips some items and yields one value for each other item: the k-th value yielded belongs to the k-th item not skipped. |
| Filter.YieldedAppend | cv2_enumerate_cameras/linux_backend.py:63-99 | Two consecutive runs of items yield their values one after the other. |
| LinuxBackend.EnumerateIsFilter | cv2_enumerate_cameras/linux_backend.py:62-99 | The output is, in increasing candidate order, the descriptors of the accepted candidates and nothing else. Its k-th element is the descriptor of the k-th accepted path. |
| LinuxBackend.EmittedWereAccepted | cv2_enumerate_cameras/linux_backend.py:63-99 | Every emitted descriptor's path is a candidate that passed the suffix check and the capture check. Its index is the suffix value, and its apiPreference is the caller's. It is exactly the descriptor `Describe` gives for that path, so its name and ids are as stated there. |
| LinuxBackend.RejectedNeverEmitted | cv2_enumerate_cameras/linux_backend.py:66-72 | A path with a non-numeric suffix, or whose probe rules out capture, never appears in the output. |
| LinuxBackend.AcceptedAreEmitted | cv2_enumerate_cameras/linux_backend.py:63-99 | Every accepted candidate's descriptor appears in the output. |
| LinuxBackend.RejectedAppendedIsSkipped | cv2_enumerate_cameras/linux_backend.py:66-72 | Appending a rejected candidate to the list leaves the output unchanged. |
| LinuxBackend.EnumerateAppend | cv2_enumerate_cameras/linux_backend.py:63 | Enumerating `a + b` gives the enumeration of a followed by that of b, so candidates keep their relative order. |
| Scenarios.DeviceCapsWithoutCapture | cv2_enumerate_cameras/linux_backend.py:32-45 | Here the `Device Caps` section lists only `Video Output`. The device is excluded, even though `Capabilities` lists `Video Capture`. |
| Scenarios.CapabilitiesWithCapture | cv2_enumerate_cameras/linux_backend.py:36-43 | Here there is no `Device Caps` header and the `Capabilities` section holds `Video Capture`. The device is admitted. |
| Scenarios.NoHeaderFailsOpen | cv2_enumerate_cameras/linux_backend.py:38-39 | A report with neither header admits the device. |
| Scenarios.NonNumericCandidateSkipped | cv2_enumerate_cameras/linux_backend.py:66-67 | Appending a `.../videoX` candidate to any list leaves the output unchanged, whatever the host. |
| Scenarios.NumericCandidateIndexed | cv2_enumerate_cameras/linux_backend.py:65-68 | `/dev/video<n>`, with n in decimal, gets the index n. So `/dev/video0` and `/dev/video1` get 0 and 1. |
| Scenarios.InterfaceNodeAscends | cv2_enumerate_cameras/linux_backend.py:89-90 | `.../usb1/1-1/1-1:1.0` becomes `.../usb1/1-1`. Only the last component is examined, although earlier ones contain ':' too. |
| Scenarios.LogitechIds | cv2_enumerate_cameras/linux_backend.py:94-97 | The lines `046d` and `0825` give 1133 and 2085. |
| Scenarios.LogitechCameraIds | cv2_enumerate_cameras/linux_backend.py:83-97 | An accepted device whose `device` link resolves to interface `1-1:1.0` of a USB device, whose id files there read `046d` and `0825`, is described with vid 1133 and pid 2085. |
| Scenarios.UnreadableNameIsNone | cv2_enumerate_cameras/linux_backend.py:75-80 | An accepted device whose name file exists but cannot be read gets the name `None`, not its device name. |

## Left out

- The `v4l2-ctl` subprocess and UTF-8 decoding (lines 27, 31) are external I/O. Their outcome is the input `Probe`: `ProbeFailed` for a non-zero exit, or `Report` for the decoded text.
- A missing `v4l2-ctl` (`FileNotFoundError`) and undecodable output (`UnicodeDecodeError`) propagate out of the source. They are not modelled: they are exceptions from I/O.
- `read_line`, `os.path.exists` and `os.path.realpath` (lines 17-23, 77-78, 85-93) are filesystem I/O. Their results are the `Host` functions. The stripping inside `read_line` is part of the `readLine` result.
- Device discovery through `linuxpy` or `glob('/dev/video*')` (lines 49-59) is a foreign library or a filesystem listing. The candidate paths are an input sequence.
- The `cv2` import (lines 6-14) is a foreign library. Only the fallback literals 1800 and 200 are recorded, as `SupportedBackends`.
- The generator is lazy. The model produces the finite sequence it would yield.
- LinuxBackend.ParseId: requires the id line to be plain ASCII hex digits when it was read. `Describe` and `DescribeCandidate` require this (`CandidateIdsWellFormed`) of the two id files an accepted candidate with a `device` link has read. `Enumerate` and the methods require it of every candidate in the list (`IdLinesHex`). `int(x, 16)` raising `ValueError` on other text is not modelled. Neither are the signs, `0x` prefixes and underscores it also accepts.
- LinuxBackend.ParseIndex: `str.isdigit` is modelled on ASCII '0'-'9' only. The other Unicode digit characters Python accepts are not modelled.
- LinuxBackend.DescribeCandidate: the body of the `for` loop is a method of its own. Its early returns stand for the source's `continue`s.
- `CameraInfo`'s class is a plain datatype with the six fields. Its `apiPreference` is passed through untouched, so its type is a parameter `A` of the datatype and of the enumeration. The class's own file is not part of this model.
