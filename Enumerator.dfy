/**
 * `get_connected_usb_devices`: the removable-device snapshot.
 *
 * The operating-system sources are inputs: the partition listing (None when
 * listing raised), the usage answer per mount point (a mount point missing
 * from the map is one whose usage query raised OSError), and what the
 * platform's inventory side channel returned.
 */
module Enumerator {
  import opened Wrappers
  import opened Text
  import opened Records

  datatype Partition = Partition(device: string, mountpoint: string, fstype: string, opts: string)

  datatype DiskUsage = DiskUsage(total: nat, used: nat, free: nat)

  /** One `Win32_DiskDrive` entry. */
  datatype WmiDrive = WmiDrive(name: string, manufacturer: string, model: string, serialNumber: string)

  /**
   * The enrichment side channel as seen by one call: on Windows the WMI drive
   * list (None when `import wmi` or the WMI query failed), on POSIX the lines
   * of `lsusb -v` (None when the command is missing, times out or fails), and
   * nothing on any other platform.
   */
  datatype Probe =
    | Windows(drives: Option<seq<WmiDrive>>)
    | Posix(lsusb: Option<seq<string>>)
    | OtherOs

  /** How an enrichment pass ended; an aborted pass keeps the fields it already set. */
  datatype Outcome = Finished(rec: Record) | Aborted(rec: Record)

  /** What one `lsusb` detail line does to the record. */
  datatype Step = Continue(rec: Record) | Stop(rec: Record) | Fail(rec: Record)

  const REMOVABLE := "removable"
  const DEV_PREFIX := "/dev/"
  const HEX_MARK := "0x"
  const ID_VENDOR := "idVendor"
  const ID_PRODUCT := "idProduct"
  const I_SERIAL := "iSerial"

  // ---------------------------------------------------------------------
  // Candidate filter and base record

  /** A partition is looked at only when it is flagged removable and has a file system. */
  predicate IsCandidate(p: Partition) {
    Contains(p.opts, REMOVABLE) && p.fstype != ""
  }

  /** A candidate whose usage query succeeds enters the snapshot. */
  predicate Admitted(p: Partition, usage: map<string, DiskUsage>) {
    IsCandidate(p) && p.mountpoint in usage
  }

  /** The dictionary built before enrichment. */
  function BaseRecord(p: Partition, u: DiskUsage): (r: Record)
    ensures r.Keys == BASE_KEYS && HasId(r) && Id(r) == p.device
  {
    map[DEVICE := Str(p.device), MOUNTPOINT := Str(p.mountpoint), FSTYPE := Str(p.fstype),
        TOTAL := Num(u.total), USED := Num(u.used), FREE := Num(u.free)]
  }

  // ---------------------------------------------------------------------
  // WMI enrichment

  function SetDriveFields(rec: Record, d: WmiDrive): Record {
    rec[VENDOR_ID := Str(d.manufacturer)][PRODUCT_ID := Str(d.model)][SERIAL_NUMBER := Str(d.serialNumber)]
  }

  /** Every drive whose name contains the device string overwrites the three fields, in list order. */
  function WmiEnrich(rec: Record, device: string, drives: seq<WmiDrive>): Record
    decreases |drives|
  {
    if drives == [] then rec
    else
      var next := if Contains(drives[0].name, device) then SetDriveFields(rec, drives[0]) else rec;
      WmiEnrich(next, device, drives[1..])
  }

  /** The index of the last drive whose name contains `device`. */
  function LastMatch(drives: seq<WmiDrive>, device: string): (r: Option<nat>)
    ensures r.Some? ==> r.value < |drives| && Contains(drives[r.value].name, device)
    ensures r.Some? ==> forall j :: r.value < j < |drives| ==> !Contains(drives[j].name, device)
    ensures r.None? ==> forall j :: 0 <= j < |drives| ==> !Contains(drives[j].name, device)
    decreases |drives|
  {
    if drives == [] then None
    else
      match LastMatch(drives[1..], device)
      case Some(k) =>
        assert forall j :: k + 1 < j < |drives| ==> drives[j] == drives[1..][j - 1];
        Some(k + 1)
      case None =>
        assert forall j :: 1 <= j < |drives| ==> drives[j] == drives[1..][j - 1];
        if Contains(drives[0].name, device) then Some(0) else None
  }

  // ---------------------------------------------------------------------
  // lsusb enrichment

  /**
   * `line.split("0x")[1].strip()`: the text between the first "0x" and the
   * next one (or the end), stripped; None where Python raises IndexError.
   */
  function HexField(line: string): Option<string> {
    match SplitSecond(line, HEX_MARK)
    case None => None
    case Some(t) => Some(Strip(t))
  }

  /**
   * What the tests on one detail line find: the three substrings, the "0x"
   * field and the last token. `DetailLine` is defined over these results;
   * `Malformed` and `Assigned` below state the same tests on the line itself,
   * because proofs about whole scans stay within the solver's resource limit
   * only in that form. `TestLineAgrees` proves the two forms equal.
   */
  datatype LineTests = LineTests(vendor: bool, product: bool, serial: bool, hex: Option<string>, token: string)
  {
    /** An id line without "0x", on which `split("0x")[1]` raises IndexError. */
    predicate Malformed() {
      (vendor || product) && hex.None?
    }

    /** The value such a line stores under `key`; a malformed line stores nothing. */
    function Stores(key: string): Option<string> {
      if Malformed() then None
      else if key == VENDOR_ID && vendor then hex
      else if key == PRODUCT_ID && product then hex
      else if key == SERIAL_NUMBER && serial then Some(token)
      else None
    }
  }

  function TestLine(line: string): LineTests {
    LineTests(Contains(line, ID_VENDOR), Contains(line, ID_PRODUCT), Contains(line, I_SERIAL), HexField(line), LastToken(line))
  }

  /**
   * The three tests made on each detail line, in source order. A malformed
   * id line aborts before anything is stored; an `iSerial` line ends the scan.
   */
  function ApplyTests(rec: Record, t: LineTests): Step {
    if t.vendor && t.hex.None? then Fail(rec)
    else
      var r1 := if t.vendor then rec[VENDOR_ID := Str(t.hex.value)] else rec;
      if t.product && t.hex.None? then Fail(r1)
      else
        var r2 := if t.product then r1[PRODUCT_ID := Str(t.hex.value)] else r1;
        if t.serial then Stop(r2[SERIAL_NUMBER := Str(t.token)]) else Continue(r2)
  }

  function DetailLine(rec: Record, line: string): Step {
    ApplyTests(rec, TestLine(line))
  }

  /** `LineTests.Malformed`, stated on the line itself. */
  predicate Malformed(line: string) {
    (Contains(line, ID_VENDOR) || Contains(line, ID_PRODUCT)) && HexField(line).None?
  }

  /** The detail scan from index `j` to the first `iSerial` line or the end. */
  function ScanDetails(rec: Record, lines: seq<string>, j: nat): Outcome
    requires j <= |lines|
    decreases |lines| - j
  {
    if j == |lines| then Finished(rec)
    else
      match DetailLine(rec, lines[j])
      case Fail(r) => Aborted(r)
      case Stop(r) => Finished(r)
      case Continue(r) => ScanDetails(r, lines, j + 1)
  }

  /**
   * The outer scan from line `i`: a line containing `name` starts a detail
   * scan at the first index holding an equal line; an abort ends everything.
   */
  function LsusbEnrich(rec: Record, name: string, lines: seq<string>, i: nat): Outcome
    requires i <= |lines|
    decreases |lines| - i
  {
    if i == |lines| then Finished(rec)
    else if Contains(lines[i], name) then
      match ScanDetails(rec, lines, IndexOf(lines, lines[i]))
      case Aborted(r) => Aborted(r)
      case Finished(r) => LsusbEnrich(r, name, lines, i + 1)
    else LsusbEnrich(rec, name, lines, i + 1)
  }

  /** The name searched for in `lsusb` output: the device with "/dev/" removed. */
  function LsusbName(device: string): string {
    RemoveAll(device, DEV_PREFIX)
  }

  /** Best-effort enrichment; whatever fails, the record survives. */
  function Enrich(rec: Record, device: string, probe: Probe): Record {
    match probe
    case Windows(None) => rec
    case Windows(Some(drives)) => WmiEnrich(rec, device, drives)
    case Posix(None) => rec
    case Posix(Some(lines)) => LsusbEnrich(rec, LsusbName(device), lines, 0).rec
    case OtherOs => rec
  }

  // ---------------------------------------------------------------------
  // The snapshot

  /** What partition `p` contributes: one enriched record, or nothing. */
  function Entry(p: Partition, usage: map<string, DiskUsage>, probe: Probe): seq<Record> {
    if Admitted(p, usage) then [Enrich(BaseRecord(p, usage[p.mountpoint]), p.device, probe)] else []
  }

  function Collect(ps: seq<Partition>, usage: map<string, DiskUsage>, probe: Probe): seq<Record>
    decreases |ps|
  {
    if ps == [] then []
    else Collect(ps[..|ps| - 1], usage, probe) + Entry(ps[|ps| - 1], usage, probe)
  }

  /** The snapshot; empty when the partition listing itself failed. */
  function Snapshot(parts: Option<seq<Partition>>, usage: map<string, DiskUsage>, probe: Probe): seq<Record> {
    match parts
    case None => []
    case Some(ps) => Collect(ps, usage, probe)
  }

  // ---------------------------------------------------------------------
  // The imperative enumerator

  method EnrichFromWmi(info: Record, device: string, drives: seq<WmiDrive>) returns (result: Record)
    ensures result == WmiEnrich(info, device, drives)
  {
    result := info;
    for i := 0 to |drives|
      invariant WmiEnrich(info, device, drives) == WmiEnrich(result, device, drives[i..])
    {
      assert drives[i..][1..] == drives[i + 1..];
      var usb := drives[i];
      if Contains(usb.name, device) {
        result := result[VENDOR_ID := Str(usb.manufacturer)];
        result := result[PRODUCT_ID := Str(usb.model)];
        result := result[SERIAL_NUMBER := Str(usb.serialNumber)];
      }
    }
  }

  /** The inner loop of the lsusb scan: detail lines from `start` until `iSerial`. */
  method ScanDetailLines(info: Record, lines: seq<string>, start: nat) returns (result: Record, aborted: bool)
    requires start <= |lines|
    ensures ScanDetails(info, lines, start) == if aborted then Aborted(result) else Finished(result)
  {
    result, aborted := info, false;
    var j := start;
    while j < |lines|
      invariant start <= j <= |lines|
      invariant ScanDetails(info, lines, start) == ScanDetails(result, lines, j)
    {
      var detail := lines[j];
      ghost var step := DetailLine(result, detail);
      assert ScanDetails(result, lines, j) == match step
        case Fail(r) => Aborted(r)
        case Stop(r) => Finished(r)
        case Continue(r) => ScanDetails(r, lines, j + 1);
      DetailLineOutcome(result, detail);
      if !Malformed(detail) {
        DetailLineUpdates(result, detail);
      }
      if Contains(detail, ID_VENDOR) {
        var field := HexField(detail);
        if field.None? {
          // IndexError: the record keeps what was set before this line.
          aborted := true;
          return;
        }
        result := result[VENDOR_ID := Str(field.value)];
      }
      if Contains(detail, ID_PRODUCT) {
        var field := HexField(detail);
        if field.None? {
          aborted := true;
          return;
        }
        result := result[PRODUCT_ID := Str(field.value)];
      }
      if Contains(detail, I_SERIAL) {
        result := result[SERIAL_NUMBER := Str(LastToken(detail))];
        break;
      }
      j := j + 1;
    }
  }

  method EnrichFromLsusb(info: Record, device: string, lines: seq<string>) returns (result: Record, aborted: bool)
    ensures LsusbEnrich(info, LsusbName(device), lines, 0) == if aborted then Aborted(result) else Finished(result)
  {
    var name := RemoveAll(device, DEV_PREFIX);
    result, aborted := info, false;
    for i := 0 to |lines|
      invariant LsusbEnrich(info, name, lines, 0) == LsusbEnrich(result, name, lines, i)
    {
      var line := lines[i];
      if Contains(line, name) {
        result, aborted := ScanDetailLines(result, lines, IndexOf(lines, line));
        if aborted {
          return;
        }
      }
    }
  }

  method EnrichDevice(info: Record, device: string, probe: Probe) returns (result: Record)
    ensures result == Enrich(info, device, probe)
  {
    result := info;
    match probe {
      case Windows(Some(drives)) =>
        result := EnrichFromWmi(info, device, drives);
      case Posix(Some(lines)) =>
        var aborted;
        result, aborted := EnrichFromLsusb(info, device, lines);
      case _ =>
    }
  }

  /** The enumerator: one pass over the partitions, appending as it goes. */
  method GetConnectedUsbDevices(parts: Option<seq<Partition>>, usage: map<string, DiskUsage>, probe: Probe)
    returns (usbDevices: seq<Record>)
    ensures usbDevices == Snapshot(parts, usage, probe)
  {
    usbDevices := [];
    if parts.None? {
      return;
    }
    var ps := parts.value;
    for i := 0 to |ps|
      invariant usbDevices == Collect(ps[..i], usage, probe)
    {
      assert ps[..i + 1][..i] == ps[..i];
      var disk := ps[i];
      if Contains(disk.opts, REMOVABLE) && disk.fstype != "" {
        if disk.mountpoint in usage {
          var diskUsage := usage[disk.mountpoint];
          var deviceInfo := map[DEVICE := Str(disk.device), MOUNTPOINT := Str(disk.mountpoint),
                                FSTYPE := Str(disk.fstype), TOTAL := Num(diskUsage.total),
                                USED := Num(diskUsage.used), FREE := Num(diskUsage.free)];
          usbDevices := usbDevices + [deviceInfo];
          // The list holds the same dictionary that enrichment goes on updating.
          deviceInfo := EnrichDevice(deviceInfo, disk.device, probe);
          usbDevices := usbDevices[|usbDevices| - 1 := deviceInfo];
        }
      }
    }
    assert ps[..|ps|] == ps;
  }

  // ---------------------------------------------------------------------
  // Properties of enrichment

  lemma DriveFieldsOverride(rec: Record, a: WmiDrive, b: WmiDrive)
    ensures SetDriveFields(SetDriveFields(rec, a), b) == SetDriveFields(rec, b)
  {
  }

  /** On WMI the last drive whose `Name` contains the device string decides all three fields. */
  lemma {:induction false} WmiLastMatchWins(rec: Record, device: string, drives: seq<WmiDrive>)
    ensures WmiEnrich(rec, device, drives) ==
      match LastMatch(drives, device)
      case None => rec
      case Some(k) => SetDriveFields(rec, drives[k])
    decreases |drives|
  {
    if drives != [] {
      var next := if Contains(drives[0].name, device) then SetDriveFields(rec, drives[0]) else rec;
      WmiLastMatchWins(next, device, drives[1..]);
      match LastMatch(drives[1..], device)
      case Some(k) =>
        assert drives[1..][k] == drives[k + 1];
        if Contains(drives[0].name, device) {
          DriveFieldsOverride(rec, drives[0], drives[k + 1]);
        }
      case None =>
    }
  }

  /** The fields a WMI pass may set, and nothing else. */
  lemma WmiKeepsBase(rec: Record, device: string, drives: seq<WmiDrive>)
    ensures SameOutside(WmiEnrich(rec, device, drives), rec, ENRICHMENT_KEYS)
    ensures rec.Keys <= WmiEnrich(rec, device, drives).Keys
  {
    WmiLastMatchWins(rec, device, drives);
  }

  /** A detail scan ends at the first `iSerial` line: lines after it are never read. */
  lemma {:induction false} ScanStopsAtSerial(rec: Record, lines: seq<string>, more: seq<string>, j: nat)
    requires j <= |lines|
    requires exists m :: j <= m < |lines| && Contains(lines[m], I_SERIAL)
    ensures ScanDetails(rec, lines + more, j) == ScanDetails(rec, lines, j)
    decreases |lines| - j
  {
    assert (lines + more)[j] == lines[j];
    var step := DetailLine(rec, lines[j]);
    if step.Continue? {
      assert !Contains(lines[j], I_SERIAL);
      ScanStopsAtSerial(step.rec, lines, more, j + 1);
    }
  }

  /** No line mentions the device: the record comes back untouched. */
  lemma {:induction false} LsusbWithoutMatch(rec: Record, name: string, lines: seq<string>, i: nat)
    requires i <= |lines|
    requires forall line :: line in lines ==> !Contains(line, name)
    ensures LsusbEnrich(rec, name, lines, i) == Finished(rec)
    decreases |lines| - i
  {
    if i < |lines| {
      assert lines[i] in lines;
      LsusbWithoutMatch(rec, name, lines, i + 1);
    }
  }

  // ---------------------------------------------------------------------
  // The lsusb scan, key by key

  /** `LineTests.Stores`, stated on the line itself. */
  function Assigned(line: string, key: string): Option<string> {
    if Malformed(line) then None
    else if key == VENDOR_ID && Contains(line, ID_VENDOR) then HexField(line)
    else if key == PRODUCT_ID && Contains(line, ID_PRODUCT) then HexField(line)
    else if key == SERIAL_NUMBER && Contains(line, I_SERIAL) then Some(LastToken(line))
    else None
  }

  lemma {:induction false} TestLineMalformed(line: string)
    ensures TestLine(line).Malformed() == Malformed(line)
  {
  }

  lemma {:induction false} TestLineStores(line: string, key: string)
    requires !Malformed(line)
    ensures TestLine(line).Stores(key) == Assigned(line, key)
  {
  }

  /** The tests made on a line agree with the direct definitions of `Malformed` and `Assigned`. */
  lemma {:induction false} TestLineAgrees(line: string, key: string)
    ensures TestLine(line).Malformed() == Malformed(line)
    ensures TestLine(line).Stores(key) == Assigned(line, key)
  {
    TestLineMalformed(line);
    if !Malformed(line) {
      TestLineStores(line, key);
    }
  }

  /** `after` holds `v` under `key`, or, when there is no `v`, agrees with `before` on `key`. */
  predicate KeyResult(after: Record, before: Record, key: string, v: Option<string>) {
    match v
    case Some(x) => key in after && after[key] == Str(x)
    case None => (key in after <==> key in before) && (key in before ==> after[key] == before[key])
  }

  lemma {:induction false} KeyResultThen(a: Record, b: Record, c: Record, key: string, v1: Option<string>, v2: Option<string>)
    requires KeyResult(b, a, key, v1) && KeyResult(c, b, key, v2)
    ensures KeyResult(c, a, key, if v2.Some? then v2 else v1)
  {
  }

  /** The "0x" field is the text between the first "0x" and the next one (or the end), stripped. */
  lemma {:induction false} HexFieldAfterFirstMark(line: string)
    ensures HexField(line).None? <==> !Contains(line, HEX_MARK)
    ensures HexField(line).Some? ==>
      var k := Find(line, HEX_MARK).value;
      HexField(line).value == Strip(SplitHead(line[k + |HEX_MARK|..], HEX_MARK))
  {
  }

  lemma {:induction false} TestsOutcome(rec: Record, t: LineTests)
    ensures ApplyTests(rec, t).Fail? <==> t.Malformed()
    ensures ApplyTests(rec, t).Stop? <==> !t.Malformed() && t.serial
    ensures ApplyTests(rec, t).Fail? ==> ApplyTests(rec, t).rec == rec
  {
  }

  /** A malformed id line aborts before anything is stored; otherwise an `iSerial` line stops the scan. */
  lemma {:induction false} DetailLineOutcome(rec: Record, line: string)
    ensures DetailLine(rec, line).Fail? <==> Malformed(line)
    ensures DetailLine(rec, line).Stop? <==> !Malformed(line) && Contains(line, I_SERIAL)
    ensures DetailLine(rec, line).Fail? ==> DetailLine(rec, line).rec == rec
  {
    TestsOutcome(rec, TestLine(line));
    TestLineAgrees(line, VENDOR_ID);
  }

  /** A detail line lets the scan go on exactly when it does not end it. */
  lemma {:induction false} DetailLineContinues(rec: Record, line: string)
    ensures DetailLine(rec, line).Continue? <==> !Halts(line)
  {
    DetailLineOutcome(rec, line);
  }

  /** A well-formed detail line as successive updates of the record. */
  lemma {:induction false} DetailLineUpdates(rec: Record, line: string)
    requires !Malformed(line)
    ensures DetailLine(rec, line).rec ==
      var h := HexField(line);
      var r1 := if Contains(line, ID_VENDOR) then rec[VENDOR_ID := Str(h.value)] else rec;
      var r2 := if Contains(line, ID_PRODUCT) then r1[PRODUCT_ID := Str(h.value)] else r1;
      if Contains(line, I_SERIAL) then r2[SERIAL_NUMBER := Str(LastToken(line))] else r2
  {
    TestLineMalformed(line);
    var t := TestLine(line);
    assert t.vendor == Contains(line, ID_VENDOR) && t.product == Contains(line, ID_PRODUCT);
    assert t.serial == Contains(line, I_SERIAL) && t.hex == HexField(line) && t.token == LastToken(line);
    TestsUpdates(rec, t);
  }

  lemma {:induction false} TestsUpdates(rec: Record, t: LineTests)
    requires !t.Malformed()
    ensures ApplyTests(rec, t).rec ==
      var r1 := if t.vendor then rec[VENDOR_ID := Str(t.hex.value)] else rec;
      var r2 := if t.product then r1[PRODUCT_ID := Str(t.hex.value)] else r1;
      if t.serial then r2[SERIAL_NUMBER := Str(t.token)] else r2
  {
  }

  lemma {:induction false} TestsSet(rec: Record, t: LineTests)
    requires !t.Malformed()
    ensures t.vendor ==> ApplyTests(rec, t).rec[VENDOR_ID] == Str(t.hex.value)
    ensures t.product ==> ApplyTests(rec, t).rec[PRODUCT_ID] == Str(t.hex.value)
    ensures t.serial ==> ApplyTests(rec, t) == Stop(ApplyTests(rec, t).rec)
    ensures t.serial ==> ApplyTests(rec, t).rec[SERIAL_NUMBER] == Str(t.token)
    ensures !t.serial ==> ApplyTests(rec, t) == Continue(ApplyTests(rec, t).rec)
  {
    EnrichmentKeysDistinct();
  }

  /**
   * What one well-formed detail line stores: an `idVendor` or `idProduct`
   * line the text after its first "0x", stripped; an `iSerial` line its last
   * space-separated token, after which the scan stops.
   */
  lemma {:induction false} DetailLineSets(rec: Record, line: string)
    requires !Malformed(line)
    ensures Contains(line, ID_VENDOR) ==> DetailLine(rec, line).rec[VENDOR_ID] == Str(HexField(line).value)
    ensures Contains(line, ID_PRODUCT) ==> DetailLine(rec, line).rec[PRODUCT_ID] == Str(HexField(line).value)
    ensures Contains(line, I_SERIAL) ==> DetailLine(rec, line) == Stop(DetailLine(rec, line).rec)
    ensures Contains(line, I_SERIAL) ==> DetailLine(rec, line).rec[SERIAL_NUMBER] == Str(LastToken(line))
    ensures !Contains(line, I_SERIAL) ==> DetailLine(rec, line) == Continue(DetailLine(rec, line).rec)
  {
    TestLineAgrees(line, VENDOR_ID);
    TestsSet(rec, TestLine(line));
  }

  lemma {:induction false} TestsEffect(rec: Record, t: LineTests, key: string)
    ensures KeyResult(ApplyTests(rec, t).rec, rec, key, t.Stores(key))
  {
    EnrichmentKeysDistinct();
  }

  /** After one detail line, each key holds the value the line stores under it, or is as before. */
  lemma {:induction false} DetailLineEffect(rec: Record, line: string, key: string)
    ensures KeyResult(DetailLine(rec, line).rec, rec, key, Assigned(line, key))
  {
    TestLineAgrees(line, key);
    TestsEffect(rec, TestLine(line), key);
  }

  /** A line never stores anything under a key other than vendor, product and serial. */
  lemma {:induction false} OnlyEnrichmentAssigned(line: string, key: string)
    requires key !in ENRICHMENT_KEYS
    ensures Assigned(line, key).None?
  {
  }

  /** A line that ends a detail scan: a malformed id line or an `iSerial` line. */
  predicate Halts(line: string) {
    Malformed(line) || Contains(line, I_SERIAL)
  }

  /** The first index at or after `i` whose flag is set, or `|bs|`. */
  function FirstTrue(bs: seq<bool>, i: nat): (t: nat)
    requires i <= |bs|
    ensures i <= t <= |bs|
    decreases |bs| - i
  {
    if i == |bs| || bs[i] then i else FirstTrue(bs, i + 1)
  }

  /** `FirstTrue` is the first set flag at or after `i`. */
  lemma {:induction false} FirstTrueIsFirst(bs: seq<bool>, i: nat)
    requires i <= |bs|
    ensures forall k :: i <= k < FirstTrue(bs, i) ==> !bs[k]
    ensures FirstTrue(bs, i) < |bs| ==> bs[FirstTrue(bs, i)]
    decreases |bs| - i
  {
    if i < |bs| && !bs[i] {
      FirstTrueIsFirst(bs, i + 1);
    }
  }

  /** Which lines end a detail scan. */
  function HaltFlags(lines: seq<string>): seq<bool> {
    seq(|lines|, i requires 0 <= i < |lines| => Halts(lines[i]))
  }

  /** The first line at or after `j` that ends a detail scan, or `|lines|`. */
  function ScanEnd(lines: seq<string>, j: nat): nat
    requires j <= |lines|
  {
    FirstTrue(HaltFlags(lines), j)
  }

  /** `ScanEnd` is the first halting line at or after `j`. */
  lemma {:induction false} ScanEndIsFirstHalt(lines: seq<string>, j: nat)
    requires j <= |lines|
    ensures j <= ScanEnd(lines, j) <= |lines|
    ensures forall i :: j <= i < ScanEnd(lines, j) ==> !Halts(lines[i])
    ensures ScanEnd(lines, j) < |lines| ==> Halts(lines[ScanEnd(lines, j)])
  {
    var bs := HaltFlags(lines);
    FirstTrueIsFirst(bs, j);
    forall i | j <= i < ScanEnd(lines, j) ensures !Halts(lines[i]) {
      assert bs[i] == Halts(lines[i]);
    }
    if ScanEnd(lines, j) < |lines| {
      assert bs[ScanEnd(lines, j)] == Halts(lines[ScanEnd(lines, j)]);
    }
  }

  /** A detail scan from `j` goes past a line that does not end it, and stops at one that does. */
  lemma {:induction false} ScanEndFront(lines: seq<string>, j: nat)
    requires j < |lines|
    ensures ScanEnd(lines, j) == if Halts(lines[j]) then j else ScanEnd(lines, j + 1)
  {
    assert HaltFlags(lines)[j] == Halts(lines[j]);
  }

  /** One past the last line a detail scan from `j` reads. */
  function ScanStop(lines: seq<string>, j: nat): nat
    requires j <= |lines|
  {
    var m := ScanEnd(lines, j);
    if m < |lines| then m + 1 else m
  }

  /** The last value present in `vs[lo..hi]`, if any. */
  function LastSome(vs: seq<Option<string>>, lo: nat, hi: nat): Option<string>
    requires lo <= hi <= |vs|
    decreases hi - lo
  {
    if lo == hi then None
    else
      match LastSome(vs, lo + 1, hi)
      case Some(v) => Some(v)
      case None => vs[lo]
  }

  /** `LastSome` is an element of `vs[lo..hi]` after which every element is absent. */
  lemma {:induction false} LastSomeIsLast(vs: seq<Option<string>>, lo: nat, hi: nat)
    requires lo <= hi <= |vs|
    ensures LastSome(vs, lo, hi).Some? ==> exists i :: (lo <= i < hi && vs[i] == LastSome(vs, lo, hi)
      && forall i' :: i < i' < hi ==> vs[i'].None?)
    ensures LastSome(vs, lo, hi).None? ==> forall i :: lo <= i < hi ==> vs[i].None?
    decreases hi - lo
  {
    if lo < hi {
      LastSomeIsLast(vs, lo + 1, hi);
      if LastSome(vs, lo + 1, hi).None? && vs[lo].Some? {
        assert vs[lo] == LastSome(vs, lo, hi);
      }
    }
  }

  /** What each line stores under `key`. */
  function Assignments(lines: seq<string>, key: string): seq<Option<string>> {
    seq(|lines|, i requires 0 <= i < |lines| => Assigned(lines[i], key))
  }

  /** The value the last line of `lines[lo..hi]` that assigns `key` gives it, if any line does. */
  function LastAssigned(lines: seq<string>, key: string, lo: nat, hi: nat): Option<string>
    requires lo <= hi <= |lines|
  {
    LastSome(Assignments(lines, key), lo, hi)
  }

  /** `LastAssigned` is the value of a line of `lines[lo..hi]` after which no line assigns `key`. */
  lemma {:induction false} LastAssignedIsLast(lines: seq<string>, key: string, lo: nat, hi: nat)
    requires lo <= hi <= |lines|
    ensures LastAssigned(lines, key, lo, hi).Some? ==> exists i :: (lo <= i < hi
      && Assigned(lines[i], key) == LastAssigned(lines, key, lo, hi)
      && forall i' :: i < i' < hi ==> Assigned(lines[i'], key).None?)
    ensures LastAssigned(lines, key, lo, hi).None? ==> forall i :: lo <= i < hi ==> Assigned(lines[i], key).None?
  {
    var vs := Assignments(lines, key);
    LastSomeIsLast(vs, lo, hi);
    if LastSome(vs, lo, hi).Some? {
      var i :| lo <= i < hi && vs[i] == LastSome(vs, lo, hi) && forall i' :: i < i' < hi ==> vs[i'].None?;
      assert Assigned(lines[i], key) == vs[i];
      forall i' | i < i' < hi ensures Assigned(lines[i'], key).None? {
        assert vs[i'] == Assigned(lines[i'], key);
      }
    } else {
      forall i | lo <= i < hi ensures Assigned(lines[i], key).None? {
        assert vs[i] == Assigned(lines[i], key);
      }
    }
  }

  /** What a detail scan from `j` leaves under `key`: the last assignment among the lines it reads. */
  function ScanValue(lines: seq<string>, key: string, j: nat): Option<string>
    requires j <= |lines|
  {
    LastAssigned(lines, key, j, ScanStop(lines, j))
  }

  /**
   * A detail scan from `j` reads up to the first malformed or `iSerial` line;
   * it aborts exactly when that line is malformed; and each key ends up with
   * the value of the last line read that assigns it, or as it was.
   */
  lemma ScanDetailsEffect(rec: Record, lines: seq<string>, j: nat, key: string)
    requires j <= |lines|
    ensures ScanDetails(rec, lines, j).Aborted? <==> ScanAborts(lines, j)
    ensures KeyResult(ScanDetails(rec, lines, j).rec, rec, key, ScanValue(lines, key, j))
  {
    ScanDetailsAborts(rec, lines, j);
    ScanDetailsKeys(rec, lines, j, key);
  }

  lemma {:induction false} ScanDetailsAborts(rec: Record, lines: seq<string>, j: nat)
    requires j <= |lines|
    ensures ScanDetails(rec, lines, j).Aborted? <==> ScanAborts(lines, j)
    decreases |lines| - j
  {
    if j < |lines| {
      var step := DetailLine(rec, lines[j]);
      DetailLineOutcome(rec, lines[j]);
      if step.Continue? {
        ScanPassesLine(lines, "", j);
        ScanDetailsAborts(step.rec, lines, j + 1);
      } else {
        ScanHaltsAtLine(lines, "", j);
      }
    }
  }

  lemma {:induction false} ScanDetailsKeys(rec: Record, lines: seq<string>, j: nat, key: string)
    requires j <= |lines|
    ensures KeyResult(ScanDetails(rec, lines, j).rec, rec, key, ScanValue(lines, key, j))
    decreases |lines| - j
  {
    if j < |lines| {
      var step := DetailLine(rec, lines[j]);
      DetailLineContinues(rec, lines[j]);
      DetailLineEffect(rec, lines[j], key);
      if step.Continue? {
        ScanPassesLine(lines, key, j);
        ScanDetailsKeys(step.rec, lines, j + 1, key);
        KeyResultThen(rec, step.rec, ScanDetails(rec, lines, j).rec, key, Assigned(lines[j], key), ScanValue(lines, key, j + 1));
      } else {
        ScanHaltsAtLine(lines, key, j);
      }
    }
  }


  lemma {:induction false} ScanPassesLine(lines: seq<string>, key: string, j: nat)
    requires j < |lines| && !Halts(lines[j])
    ensures ScanAborts(lines, j) == ScanAborts(lines, j + 1)
    ensures ScanValue(lines, key, j) ==
      if ScanValue(lines, key, j + 1).Some? then ScanValue(lines, key, j + 1) else Assigned(lines[j], key)
  {
    ScanEndFront(lines, j);
    var stop := ScanStop(lines, j);
    assert stop == ScanStop(lines, j + 1) && j < stop;
    LastAssignedFront(lines, key, j, stop);
  }

  lemma {:induction false} LastAssignedFront(lines: seq<string>, key: string, lo: nat, hi: nat)
    requires lo < hi <= |lines|
    ensures LastAssigned(lines, key, lo, hi) ==
      if LastAssigned(lines, key, lo + 1, hi).Some? then LastAssigned(lines, key, lo + 1, hi) else Assigned(lines[lo], key)
  {
    assert Assignments(lines, key)[lo] == Assigned(lines[lo], key);
  }

  lemma {:induction false} ScanHaltsAtLine(lines: seq<string>, key: string, j: nat)
    requires j < |lines| && Halts(lines[j])
    ensures ScanAborts(lines, j) == Malformed(lines[j])
    ensures ScanValue(lines, key, j) == Assigned(lines[j], key)
  {
    ScanEndFront(lines, j);
    LastAssignedFront(lines, key, j, j + 1);
  }

  /** The value the scan started by line `t` leaves under `key`, if line `t` names the device. */
  function LineValue(lines: seq<string>, name: string, key: string, t: nat): Option<string>
    requires t < |lines|
  {
    if Contains(lines[t], name) then ScanValue(lines, key, IndexOf(lines, lines[t])) else None
  }

  /** Line `t` names the device and the detail scan it starts aborts. */
  predicate AbortsAt(lines: seq<string>, name: string, t: nat)
    requires t < |lines|
  {
    Contains(lines[t], name) && ScanAborts(lines, IndexOf(lines, lines[t]))
  }

  /** The detail scan from `j` ends on a malformed line. */
  predicate ScanAborts(lines: seq<string>, j: nat)
    requires j <= |lines|
  {
    ScanEnd(lines, j) < |lines| && Malformed(lines[ScanEnd(lines, j)])
  }

  /** Which lines start a detail scan that aborts. */
  function AbortFlags(lines: seq<string>, name: string): seq<bool> {
    seq(|lines|, t requires 0 <= t < |lines| => AbortsAt(lines, name, t))
  }

  /** The first line at or after `i` whose scan aborts, or `|lines|`. */
  function FirstAbort(lines: seq<string>, name: string, i: nat): nat
    requires i <= |lines|
  {
    FirstTrue(AbortFlags(lines, name), i)
  }

  /** `FirstAbort` is the first line at or after `i` whose scan aborts. */
  lemma {:induction false} FirstAbortIsFirst(lines: seq<string>, name: string, i: nat)
    requires i <= |lines|
    ensures i <= FirstAbort(lines, name, i) <= |lines|
    ensures forall k :: i <= k < FirstAbort(lines, name, i) ==> !AbortsAt(lines, name, k)
    ensures FirstAbort(lines, name, i) < |lines| ==> AbortsAt(lines, name, FirstAbort(lines, name, i))
  {
    var bs := AbortFlags(lines, name);
    FirstTrueIsFirst(bs, i);
    forall k | i <= k < FirstAbort(lines, name, i) ensures !AbortsAt(lines, name, k) {
      assert bs[k] == AbortsAt(lines, name, k);
    }
    if FirstAbort(lines, name, i) < |lines| {
      assert bs[FirstAbort(lines, name, i)] == AbortsAt(lines, name, FirstAbort(lines, name, i));
    }
  }

  /** A pass from `i` goes past a line whose scan does not abort, and stops at one whose scan does. */
  lemma {:induction false} FirstAbortFront(lines: seq<string>, name: string, i: nat)
    requires i < |lines|
    ensures FirstAbort(lines, name, i) == if AbortsAt(lines, name, i) then i else FirstAbort(lines, name, i + 1)
  {
    assert AbortFlags(lines, name)[i] == AbortsAt(lines, name, i);
  }

  /** One past the last line whose scan an `lsusb` pass from `i` runs. */
  function PassStop(lines: seq<string>, name: string, i: nat): nat
    requires i <= |lines|
  {
    var t := FirstAbort(lines, name, i);
    if t < |lines| then t + 1 else t
  }

  /** The value each line's scan leaves under `key`. */
  function LineValues(lines: seq<string>, name: string, key: string): seq<Option<string>> {
    seq(|lines|, t requires 0 <= t < |lines| => LineValue(lines, name, key, t))
  }

  /** The value the scan of the last line in `lines[lo..hi]` that names the device and assigns `key` gives it. */
  function LastScanValue(lines: seq<string>, name: string, key: string, lo: nat, hi: nat): Option<string>
    requires lo <= hi <= |lines|
  {
    LastSome(LineValues(lines, name, key), lo, hi)
  }

  /** `LastScanValue` is the value of a scan in `lines[lo..hi]` after which no scan assigns `key`. */
  lemma {:induction false} LastScanValueIsLast(lines: seq<string>, name: string, key: string, lo: nat, hi: nat)
    requires lo <= hi <= |lines|
    ensures LastScanValue(lines, name, key, lo, hi).Some? ==> exists t :: (lo <= t < hi
      && LineValue(lines, name, key, t) == LastScanValue(lines, name, key, lo, hi)
      && forall t' :: t < t' < hi ==> LineValue(lines, name, key, t').None?)
    ensures LastScanValue(lines, name, key, lo, hi).None? ==> forall t :: lo <= t < hi ==> LineValue(lines, name, key, t).None?
  {
    var vs := LineValues(lines, name, key);
    LastSomeIsLast(vs, lo, hi);
    if LastSome(vs, lo, hi).Some? {
      var t :| lo <= t < hi && vs[t] == LastSome(vs, lo, hi) && forall t' :: t < t' < hi ==> vs[t'].None?;
      assert LineValue(lines, name, key, t) == vs[t];
      forall t' | t < t' < hi ensures LineValue(lines, name, key, t').None? {
        assert vs[t'] == LineValue(lines, name, key, t');
      }
    } else {
      forall t | lo <= t < hi ensures LineValue(lines, name, key, t).None? {
        assert vs[t] == LineValue(lines, name, key, t);
      }
    }
  }

  /**
   * An `lsusb` pass from line `i`: every line naming the device starts a
   * detail scan at the first line equal to it; the pass aborts exactly when
   * one of those scans does, keeping what earlier scans stored; and each key
   * ends up with the value of the last scan that assigns it, or as it was.
   */
  lemma {:induction false} LsusbEffect(rec: Record, name: string, lines: seq<string>, i: nat, key: string)
    requires i <= |lines|
    ensures LsusbEnrich(rec, name, lines, i).Aborted? <==> FirstAbort(lines, name, i) < |lines|
    ensures KeyResult(LsusbEnrich(rec, name, lines, i).rec, rec, key, LastScanValue(lines, name, key, i, PassStop(lines, name, i)))
    decreases |lines| - i
  {
    if i < |lines| {
      if Contains(lines[i], name) {
        var j := IndexOf(lines, lines[i]);
        var scan := ScanDetails(rec, lines, j);
        ScanDetailsEffect(rec, lines, j, key);
        assert LineValue(lines, name, key, i) == ScanValue(lines, key, j);
        if scan.Finished? {
          PassGoesOn(lines, name, key, i);
          LsusbEffect(scan.rec, name, lines, i + 1, key);
          KeyResultThen(rec, scan.rec, LsusbEnrich(rec, name, lines, i).rec, key,
            ScanValue(lines, key, j), LastScanValue(lines, name, key, i + 1, PassStop(lines, name, i + 1)));
        } else {
          PassAbortsAt(lines, name, key, i);
        }
      } else {
        PassGoesOn(lines, name, key, i);
        LsusbEffect(rec, name, lines, i + 1, key);
      }
    }
  }

  lemma {:induction false} LastScanValueFront(lines: seq<string>, name: string, key: string, lo: nat, hi: nat)
    requires lo < hi <= |lines|
    ensures LastScanValue(lines, name, key, lo, hi) ==
      if LastScanValue(lines, name, key, lo + 1, hi).Some? then LastScanValue(lines, name, key, lo + 1, hi)
      else LineValue(lines, name, key, lo)
  {
    assert LineValues(lines, name, key)[lo] == LineValue(lines, name, key, lo);
  }

  lemma {:induction false} PassGoesOn(lines: seq<string>, name: string, key: string, i: nat)
    requires i < |lines| && !AbortsAt(lines, name, i)
    ensures FirstAbort(lines, name, i) == FirstAbort(lines, name, i + 1)
    ensures PassStop(lines, name, i) == PassStop(lines, name, i + 1)
    ensures LastScanValue(lines, name, key, i, PassStop(lines, name, i)) ==
      if LastScanValue(lines, name, key, i + 1, PassStop(lines, name, i + 1)).Some?
      then LastScanValue(lines, name, key, i + 1, PassStop(lines, name, i + 1))
      else LineValue(lines, name, key, i)
  {
    FirstAbortFront(lines, name, i);
    LastScanValueFront(lines, name, key, i, PassStop(lines, name, i));
  }

  lemma {:induction false} PassAbortsAt(lines: seq<string>, name: string, key: string, i: nat)
    requires i < |lines| && AbortsAt(lines, name, i)
    ensures FirstAbort(lines, name, i) == i
    ensures LastScanValue(lines, name, key, i, PassStop(lines, name, i)) == LineValue(lines, name, key, i)
  {
    FirstAbortFront(lines, name, i);
    LastScanValueFront(lines, name, key, i, i + 1);
  }

  lemma {:induction false} NoScanValue(lines: seq<string>, key: string, j: nat)
    requires key !in ENRICHMENT_KEYS && j <= |lines|
    ensures ScanValue(lines, key, j).None?
  {
    forall i | 0 <= i < |lines| ensures Assigned(lines[i], key).None? {
      OnlyEnrichmentAssigned(lines[i], key);
    }
    LastAssignedIsLast(lines, key, j, ScanStop(lines, j));
  }

  lemma {:induction false} NoPassValue(lines: seq<string>, name: string, key: string, lo: nat, hi: nat)
    requires key !in ENRICHMENT_KEYS && lo <= hi <= |lines|
    ensures LastScanValue(lines, name, key, lo, hi).None?
  {
    forall t | lo <= t < hi ensures LineValue(lines, name, key, t).None? {
      if Contains(lines[t], name) {
        NoScanValue(lines, key, IndexOf(lines, lines[t]));
      }
    }
    LastScanValueIsLast(lines, name, key, lo, hi);
  }

  /** Whatever the side channel does, only the enrichment keys can change, and none disappears. */
  lemma EnrichKeepsBase(rec: Record, device: string, probe: Probe)
    ensures SameOutside(Enrich(rec, device, probe), rec, ENRICHMENT_KEYS)
    ensures rec.Keys <= Enrich(rec, device, probe).Keys
  {
    match probe
    case Windows(Some(drives)) => WmiKeepsBase(rec, device, drives);
    case Posix(Some(lines)) =>
      var name := LsusbName(device);
      var after := Enrich(rec, device, probe);
      forall k
        ensures k !in ENRICHMENT_KEYS ==> (k in after <==> k in rec) && (k in after ==> after[k] == rec[k])
        ensures k in rec ==> k in after
      {
        LsusbEffect(rec, name, lines, 0, k);
        if k !in ENRICHMENT_KEYS {
          NoPassValue(lines, name, k, 0, PassStop(lines, name, 0));
        }
      }
    case _ =>
  }

  // ---------------------------------------------------------------------
  // Properties of the snapshot

  /** The admitted partitions, in listing order. */
  function Included(ps: seq<Partition>, usage: map<string, DiskUsage>): (r: seq<Partition>)
    ensures forall k :: 0 <= k < |r| ==> Admitted(r[k], usage)
    ensures |r| <= |ps|
    decreases |ps|
  {
    if ps == [] then []
    else
      var last := ps[|ps| - 1];
      Included(ps[..|ps| - 1], usage) + if Admitted(last, usage) then [last] else []
  }

  lemma {:induction false} IncludedMembership(ps: seq<Partition>, usage: map<string, DiskUsage>)
    ensures forall p :: p in Included(ps, usage) <==> p in ps && Admitted(p, usage)
    decreases |ps|
  {
    if ps != [] {
      IncludedMembership(ps[..|ps| - 1], usage);
      assert ps == ps[..|ps| - 1] + [ps[|ps| - 1]];
    }
  }

  /** The k-th record of the snapshot is the enriched base record of the k-th admitted partition. */
  lemma {:induction false} CollectIsIncluded(ps: seq<Partition>, usage: map<string, DiskUsage>, probe: Probe)
    ensures |Collect(ps, usage, probe)| == |Included(ps, usage)|
    ensures forall k :: 0 <= k < |Included(ps, usage)| ==>
      var p := Included(ps, usage)[k];
      Collect(ps, usage, probe)[k] == Enrich(BaseRecord(p, usage[p.mountpoint]), p.device, probe)
    decreases |ps|
  {
    if ps != [] {
      CollectIsIncluded(ps[..|ps| - 1], usage, probe);
    }
  }

  /** Records come in partition order: the snapshot of a concatenation is the concatenation of snapshots. */
  lemma {:induction false} CollectAppend(ps1: seq<Partition>, ps2: seq<Partition>, usage: map<string, DiskUsage>, probe: Probe)
    ensures Collect(ps1 + ps2, usage, probe) == Collect(ps1, usage, probe) + Collect(ps2, usage, probe)
    decreases |ps2|
  {
    if ps2 == [] {
      assert ps1 + ps2 == ps1;
    } else {
      var init := ps2[..|ps2| - 1];
      CollectAppend(ps1, init, usage, probe);
      assert (ps1 + ps2)[..|ps1 + ps2| - 1] == ps1 + init;
    }
  }

  lemma RecordOfPartition(p: Partition, u: DiskUsage, probe: Probe)
    ensures var r := Enrich(BaseRecord(p, u), p.device, probe);
      && SameOutside(r, BaseRecord(p, u), ENRICHMENT_KEYS)
      && BASE_KEYS <= r.Keys <= BASE_KEYS + ENRICHMENT_KEYS
      && HasId(r) && Id(r) == p.device
  {
    EnrichKeepsBase(BaseRecord(p, u), p.device, probe);
  }

  /**
   * The snapshot holds one record per admitted partition, in listing order;
   * each carries the partition's device, mount point and file system and the
   * usage triple unchanged, plus at most the three enrichment fields.
   */
  lemma SnapshotRecords(ps: seq<Partition>, usage: map<string, DiskUsage>, probe: Probe)
    ensures |Snapshot(Some(ps), usage, probe)| == |Included(ps, usage)|
    ensures forall k :: 0 <= k < |Included(ps, usage)| ==>
      var p, r := Included(ps, usage)[k], Snapshot(Some(ps), usage, probe)[k];
      && SameOutside(r, BaseRecord(p, usage[p.mountpoint]), ENRICHMENT_KEYS)
      && BASE_KEYS <= r.Keys <= BASE_KEYS + ENRICHMENT_KEYS
      && HasId(r) && Id(r) == p.device
  {
    CollectIsIncluded(ps, usage, probe);
    var inc := Included(ps, usage);
    forall k | 0 <= k < |inc| {
      RecordOfPartition(inc[k], usage[inc[k].mountpoint], probe);
    }
  }

  /**
   * Enrichment never decides whether a device is reported: with any side
   * channel, failing or not, the snapshot lists the same devices as with none,
   * differing only in the enrichment fields.
   */
  lemma EnrichmentNeverDropsDevice(parts: Option<seq<Partition>>, usage: map<string, DiskUsage>, probe: Probe)
    ensures |Snapshot(parts, usage, probe)| == |Snapshot(parts, usage, OtherOs)|
    ensures forall k :: 0 <= k < |Snapshot(parts, usage, probe)| ==>
      SameOutside(Snapshot(parts, usage, probe)[k], Snapshot(parts, usage, OtherOs)[k], ENRICHMENT_KEYS)
  {
    if parts.Some? {
      SnapshotRecords(parts.value, usage, probe);
      SnapshotRecords(parts.value, usage, OtherOs);
    }
  }

  lemma SnapshotIdsAt(ps: seq<Partition>, usage: map<string, DiskUsage>, probe: Probe)
    ensures |Collect(ps, usage, probe)| == |Included(ps, usage)|
    ensures forall k :: 0 <= k < |Included(ps, usage)| ==>
      HasId(Collect(ps, usage, probe)[k]) && Id(Collect(ps, usage, probe)[k]) == Included(ps, usage)[k].device
  {
    SnapshotRecords(ps, usage, probe);
  }

  /**
   * The identities reported are exactly the devices of the partitions that are
   * removable, have a file system and answer the usage query.
   */
  lemma SnapshotIds(parts: Option<seq<Partition>>, usage: map<string, DiskUsage>, probe: Probe)
    ensures forall r :: r in Snapshot(parts, usage, probe) ==> HasId(r)
    ensures Ids(Snapshot(parts, usage, probe)) ==
      if parts.None? then {} else set p | p in parts.value && Admitted(p, usage) :: p.device
  {
    if parts.Some? {
      var ps := parts.value;
      var s := Collect(ps, usage, probe);
      var inc := Included(ps, usage);
      SnapshotIdsAt(ps, usage, probe);
      IncludedMembership(ps, usage);
      forall r | r in s ensures HasId(r) {
        var k :| 0 <= k < |s| && s[k] == r;
      }
      var devices := set p | p in ps && Admitted(p, usage) :: p.device;
      forall id | id in Ids(s) ensures id in devices {
        var r :| r in s && Id(r) == id;
        var k :| 0 <= k < |s| && s[k] == r;
        assert inc[k] in inc;
      }
      forall id | id in devices ensures id in Ids(s) {
        var p :| p in ps && Admitted(p, usage) && p.device == id;
        assert p in inc;
        var k :| 0 <= k < |inc| && inc[k] == p;
        assert s[k] in s;
      }
    }
  }
}
