/** `log_device_event`: the text of one connect/disconnect log line (without timestamp or level). */
module EventLog {
  import opened Records

  const NOT_AVAILABLE := "N/A"

  function Digit(d: nat): char
    requires d < 10
  {
    "0123456789"[d]
  }

  /** `str(n)` for a numeric value; in snapshot records only the unlogged usage keys hold one. */
  function Decimal(n: nat): (r: string)
    ensures |r| > 0
    ensures forall i :: 0 <= i < |r| ==> '0' <= r[i] <= '9'
  {
    if n < 10 then [Digit(n)] else Decimal(n / 10) + [Digit(n % 10)]
  }

  /** The number a string of decimal digits denotes, most significant digit first. */
  function DigitsValue(s: string): nat
    requires forall i :: 0 <= i < |s| ==> '0' <= s[i] <= '9'
  {
    if s == [] then 0 else DigitsValue(s[..|s| - 1]) * 10 + (s[|s| - 1] as int - '0' as int)
  }

  lemma DigitValue(d: nat)
    requires d < 10
    ensures Digit(d) as int - '0' as int == d
  {
    assert "0123456789" == ['0', '1', '2', '3', '4', '5', '6', '7', '8', '9'];
  }

  /** `Decimal(n)` denotes `n`, without a leading zero unless `n` is 0, as `str(n)` does. */
  lemma {:induction false} DecimalValue(n: nat)
    ensures DigitsValue(Decimal(n)) == n
    ensures Decimal(n)[0] == '0' ==> n == 0
    decreases n
  {
    DigitValue(n % 10);
    if n >= 10 {
      DecimalValue(n / 10);
      var r := Decimal(n);
      assert r[..|r| - 1] == Decimal(n / 10);
      DigitValue(n / 10 % 10);
    }
  }

  /** How a dictionary value appears inside the f-string. */
  function Show(v: Value): string {
    match v
    case Str(s) => s
    case Num(n) => Decimal(n)
  }

  /** `info.get(key, 'N/A')` as it appears in the message. */
  function Lookup(info: Record, key: string): string {
    if key in info then Show(info[key]) else NOT_AVAILABLE
  }

  /** The message `log_device_event(eventType, info)` logs (literals split at each ", "). */
  function FormatMessage(eventType: string, info: Record): string {
    "USB Device " + eventType + ": " + "Device: " + Lookup(info, DEVICE) + ", " + "Mountpoint: " + Lookup(info, MOUNTPOINT) + ", "
    + "Filesystem: " + Lookup(info, FSTYPE) + ", " + "Vendor ID: " + Lookup(info, VENDOR_ID) + ", "
    + "Product ID: " + Lookup(info, PRODUCT_ID) + ", " + "Serial Number: " + Lookup(info, SERIAL_NUMBER)
  }

  /** The logged fields in order: the label shown and the dictionary key read. */
  const LOGGED_FIELDS: seq<(string, string)> := [
    ("Device: ", DEVICE), ("Mountpoint: ", MOUNTPOINT), ("Filesystem: ", FSTYPE),
    ("Vendor ID: ", VENDOR_ID), ("Product ID: ", PRODUCT_ID), ("Serial Number: ", SERIAL_NUMBER)]

  /** `label: value` for each field, separated by ", ", a missing key showing as N/A. */
  function RenderFields(fields: seq<(string, string)>, info: Record): string
    decreases |fields|
  {
    if fields == [] then ""
    else
      var item := fields[0].0 + Lookup(info, fields[0].1);
      if |fields| == 1 then item else item + ", " + RenderFields(fields[1..], info)
  }

  lemma Regroup(q: string, name: string, value: string, rest: string)
    ensures q + name + value + ", " + rest == q + (name + value + ", " + rest)
  {
  }

  lemma RegroupLast(q: string, name: string, value: string)
    ensures q + name + value == q + (name + value)
  {
  }

  /** The field table rendered for `info`, written out field by field. */
  lemma RenderLoggedFields(info: Record)
    ensures RenderFields(LOGGED_FIELDS, info) ==
      "Device: " + Lookup(info, DEVICE) + ", " + ("Mountpoint: " + Lookup(info, MOUNTPOINT) + ", "
      + ("Filesystem: " + Lookup(info, FSTYPE) + ", " + ("Vendor ID: " + Lookup(info, VENDOR_ID) + ", "
      + ("Product ID: " + Lookup(info, PRODUCT_ID) + ", " + ("Serial Number: " + Lookup(info, SERIAL_NUMBER))))))
  {
    var f := LOGGED_FIELDS;
    var s5 := "Serial Number: " + Lookup(info, SERIAL_NUMBER);
    var s4 := "Product ID: " + Lookup(info, PRODUCT_ID) + ", " + s5;
    var s3 := "Vendor ID: " + Lookup(info, VENDOR_ID) + ", " + s4;
    var s2 := "Filesystem: " + Lookup(info, FSTYPE) + ", " + s3;
    var s1 := "Mountpoint: " + Lookup(info, MOUNTPOINT) + ", " + s2;
    assert RenderFields(f[5..], info) == s5;
    assert f[4..][1..] == f[5..];
    assert RenderFields(f[4..], info) == s4;
    assert f[3..][1..] == f[4..];
    assert RenderFields(f[3..], info) == s3;
    assert f[2..][1..] == f[3..];
    assert RenderFields(f[2..], info) == s2;
    assert f[1..][1..] == f[2..];
    assert RenderFields(f[1..], info) == s1;
    assert RenderFields(f, info) == "Device: " + Lookup(info, DEVICE) + ", " + s1;
  }

  /** The message is the event header followed by the field table rendered in order. */
  lemma FormatFollowsFieldTable(eventType: string, info: Record)
    ensures FormatMessage(eventType, info) == "USB Device " + eventType + ": " + RenderFields(LOGGED_FIELDS, info)
  {
    RenderLoggedFields(info);
    var v0, v1, v2 := Lookup(info, DEVICE), Lookup(info, MOUNTPOINT), Lookup(info, FSTYPE);
    var v3, v4, v5 := Lookup(info, VENDOR_ID), Lookup(info, PRODUCT_ID), Lookup(info, SERIAL_NUMBER);
    var s5 := "Serial Number: " + v5;
    var s4 := "Product ID: " + v4 + ", " + s5;
    var s3 := "Vendor ID: " + v3 + ", " + s4;
    var s2 := "Filesystem: " + v2 + ", " + s3;
    var s1 := "Mountpoint: " + v1 + ", " + s2;
    var q0 := "USB Device " + eventType + ": ";
    var q1 := q0 + "Device: " + v0 + ", ";
    var q2 := q1 + "Mountpoint: " + v1 + ", ";
    var q3 := q2 + "Filesystem: " + v2 + ", ";
    var q4 := q3 + "Vendor ID: " + v3 + ", ";
    var q5 := q4 + "Product ID: " + v4 + ", ";
    assert FormatMessage(eventType, info) == q5 + "Serial Number: " + v5;
    RegroupLast(q5, "Serial Number: ", v5);
    Regroup(q4, "Product ID: ", v4, s5);
    Regroup(q3, "Vendor ID: ", v3, s4);
    Regroup(q2, "Filesystem: ", v2, s3);
    Regroup(q1, "Mountpoint: ", v1, s2);
    Regroup(q0, "Device: ", v0, s1);
  }

  lemma RegroupField(q: string, sep: string, name: string, value: string)
    ensures q + sep + name + value == q + (sep + name + value)
  {
  }

  lemma NotAvailableLiterals()
    ensures ", " + "Mountpoint: " + NOT_AVAILABLE == ", Mountpoint: N/A"
    ensures ", " + "Filesystem: " + NOT_AVAILABLE == ", Filesystem: N/A"
    ensures ", " + "Vendor ID: " + NOT_AVAILABLE == ", Vendor ID: N/A"
    ensures ", " + "Product ID: " + NOT_AVAILABLE == ", Product ID: N/A"
    ensures ", " + "Serial Number: " + NOT_AVAILABLE == ", Serial Number: N/A"
  {
  }

  lemma MinimalRecordLookups(id: string)
    ensures Lookup(map[DEVICE := Str(id)], DEVICE) == id
    ensures forall key :: key in [MOUNTPOINT, FSTYPE, VENDOR_ID, PRODUCT_ID, SERIAL_NUMBER] ==>
      Lookup(map[DEVICE := Str(id)], key) == NOT_AVAILABLE
  {
  }

  /** The minimal record of a vanished device: its id, then N/A for all five other fields. */
  lemma DisconnectedMessage(id: string)
    ensures FormatMessage("Disconnected", map[DEVICE := Str(id)]) ==
      "USB Device Disconnected: Device: " + id + ", Mountpoint: N/A" + ", Filesystem: N/A"
      + ", Vendor ID: N/A" + ", Product ID: N/A" + ", Serial Number: N/A"
  {
    var info := map[DEVICE := Str(id)];
    MinimalRecordLookups(id);
    NotAvailableLiterals();
    var na := NOT_AVAILABLE;
    var q0 := "USB Device " + "Disconnected" + ": " + "Device: " + id;
    assert q0 == "USB Device Disconnected: Device: " + id;
    var q1 := q0 + ", " + "Mountpoint: " + na;
    RegroupField(q0, ", ", "Mountpoint: ", na);
    var q2 := q1 + ", " + "Filesystem: " + na;
    RegroupField(q1, ", ", "Filesystem: ", na);
    var q3 := q2 + ", " + "Vendor ID: " + na;
    RegroupField(q2, ", ", "Vendor ID: ", na);
    var q4 := q3 + ", " + "Product ID: " + na;
    RegroupField(q3, ", ", "Product ID: ", na);
    var q5 := q4 + ", " + "Serial Number: " + na;
    RegroupField(q4, ", ", "Serial Number: ", na);
    assert FormatMessage("Disconnected", info) == q5 by {
      assert MOUNTPOINT in [MOUNTPOINT, FSTYPE, VENDOR_ID, PRODUCT_ID, SERIAL_NUMBER];
      assert FSTYPE in [MOUNTPOINT, FSTYPE, VENDOR_ID, PRODUCT_ID, SERIAL_NUMBER];
      assert VENDOR_ID in [MOUNTPOINT, FSTYPE, VENDOR_ID, PRODUCT_ID, SERIAL_NUMBER];
      assert PRODUCT_ID in [MOUNTPOINT, FSTYPE, VENDOR_ID, PRODUCT_ID, SERIAL_NUMBER];
      assert SERIAL_NUMBER in [MOUNTPOINT, FSTYPE, VENDOR_ID, PRODUCT_ID, SERIAL_NUMBER];
    }
  }

  /** Only the six logged keys matter: the usage counts and any other entry never reach the message. */
  lemma MessageReadsLoggedKeysOnly(eventType: string, a: Record, b: Record)
    requires forall i :: 0 <= i < |LOGGED_FIELDS| ==> Lookup(a, LOGGED_FIELDS[i].1) == Lookup(b, LOGGED_FIELDS[i].1)
    ensures FormatMessage(eventType, a) == FormatMessage(eventType, b)
  {
    assert Lookup(a, DEVICE) == Lookup(b, DEVICE) by { assert LOGGED_FIELDS[0].1 == DEVICE; }
    assert Lookup(a, MOUNTPOINT) == Lookup(b, MOUNTPOINT) by { assert LOGGED_FIELDS[1].1 == MOUNTPOINT; }
    assert Lookup(a, FSTYPE) == Lookup(b, FSTYPE) by { assert LOGGED_FIELDS[2].1 == FSTYPE; }
    assert Lookup(a, VENDOR_ID) == Lookup(b, VENDOR_ID) by { assert LOGGED_FIELDS[3].1 == VENDOR_ID; }
    assert Lookup(a, PRODUCT_ID) == Lookup(b, PRODUCT_ID) by { assert LOGGED_FIELDS[4].1 == PRODUCT_ID; }
    assert Lookup(a, SERIAL_NUMBER) == Lookup(b, SERIAL_NUMBER) by { assert LOGGED_FIELDS[5].1 == SERIAL_NUMBER; }
  }
}
