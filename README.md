# USB device monitor: a Dafny model

This project models the logic of `monitor-usbdevices`, a script that polls the host for
removable storage devices and logs a line whenever one appears or disappears. The model has
three parts:

- **The enumerator** (`get_connected_usb_devices`, module `Enumerator`). The partition
  listing is filtered to removable partitions that have a file system. Each candidate whose
  usage query succeeds gets a dictionary with `device`, `mountpoint`, `fstype`, `total`,
  `used` and `free`. That dictionary is appended to the result first. It is then enriched on
  a best-effort basis with `vendor_id`, `product_id` and `serial_number`, from the WMI drive
  list on Windows or from the lines of `lsusb -v` on POSIX.
- **The event message** (`log_device_event`, module `EventLog`). This is the text of a
  Connected or Disconnected line. Any key missing from the dictionary shows as `N/A`.
- **The poll tick** (the body of `main`'s loop, module `Monitor`). Class `PollState` holds
  the set of device ids seen on the previous tick. `Tick` emits one Connected event per
  entry of the new snapshot whose id is new, in snapshot order. It then emits one
  Disconnected event per vanished id, carrying only `{"device": id}`. Finally it replaces
  the stored set with the snapshot's ids.

`Text` models the Python string and list operations the script uses: `in`, `split`,
`strip`, `replace` and `list.index`. `Records` models the dictionary, as a map from string
keys to text or byte counts.

The operating system is turned into inputs:

- the partition list, where `None` means `disk_partitions` raised;
- a map from mount point to usage triple, where a missing mount point means the usage query
  raised `OSError`;
- a `Probe`. It is `Windows(drives)` or `Posix(lines)`, with `None` when the side channel
  failed, or `OtherOs`.

A natural reading of the tick is that every new id yields exactly one Connected event. The
code emits one event per snapshot *entry* whose id is new. So two partitions with the same
device would both be reported. The model follows the code (`Monitor.ConnectedCount`) and
proves "exactly one" for snapshots without repeated ids
(`Monitor.CountIdDistinct`).

## Model

| member | source | states |
|---|---|---|
| Text.Find | main.py:57 | The substring test `p in s`: the result is the first index where `p` occurs, or None exactly when `p` occurs nowhere |
| Text.SplitHead | main.py:60 | `s.split(sep)[0]`: the prefix of `s` before the first occurrence of `sep` (no earlier position holds `sep`), or all of `s` when `sep` does not occur; it contains no `sep` |
| Text.SplitSecond | main.py:60 | `s.split(sep)[1]`: None (IndexError) exactly when `sep` does not occur; otherwise the text after the first occurrence of `sep`, up to the next `sep` or the end |
| Text.StripStart | main.py:60 | Removes a leading run of whitespace and leaves a non-space first character |
| Text.StripEnd | main.py:60 | Removes a trailing run of whitespace and leaves a non-space last character |
| Text.Strip | main.py:60 | `strip()`: a slice of `s` whose removed prefix and suffix are whitespace, and which neither starts nor ends with whitespace |
| Text.LastToken | main.py:64 | `split(' ')[-1]`: a suffix of the line with no space in it, preceded by a space unless it is the whole line |
| Text.RemoveAll | main.py:57 | `replace(p, '')` never makes the text longer; when `p` occurs, the result is shorter by at least the length of `p`; a result as long as the input is the input unchanged |
| Text.RemoveAllAbsent | main.py:57 | `replace('/dev/', '')` leaves a name unchanged when the name holds no `/dev/` |
| Text.RemoveLeading | main.py:57 | `replace('/dev/', '')` on `/dev/` + `n` gives `n` when `n` holds no `/dev/` |
| Text.IndexOf | main.py:58 | `lines.index(line)`: the first index holding an equal line |
| Enumerator.BaseRecord | main.py:31-38 | The dictionary built for an admitted partition has exactly the six base keys, and its id is the partition's device |
| Enumerator.LastMatch | main.py:46-50 | The last drive whose `Name` contains the device string; no later drive matches, and None means none matches |
| Enumerator.WmiLastMatchWins | main.py:46-50 | After the WMI loop, vendor, product and serial are those of the last matching drive; the record is unchanged if none matches |
| Enumerator.WmiKeepsBase | main.py:46-50 | The WMI pass changes only the three enrichment keys and removes no key |
| Enumerator.HexFieldAfterFirstMark | main.py:59-62 | `split("0x")[1].strip()`: None (IndexError) exactly when the line holds no "0x"; otherwise the text after the first "0x" up to the next "0x" or the end, stripped |
| Enumerator.DetailLineOutcome | main.py:59-65 | A detail line aborts (IndexError) exactly when it names `idVendor` or `idProduct` but holds no "0x", and then the record is unchanged; otherwise it stops the scan exactly when it names `iSerial` |
| Enumerator.DetailLineSets | main.py:59-65 | On a well-formed line, `idVendor`/`idProduct` set their key to the stripped text after the first "0x"; `iSerial` sets the serial number to the last space-separated token and breaks; any other line lets the scan go on |
| Enumerator.DetailLineEffect | main.py:59-64 | After one detail line, each key holds the value the line assigns to it, or is as it was (present or absent, same value) |
| Enumerator.OnlyEnrichmentAssigned | main.py:59-64 | A detail line assigns nothing but `vendor_id`, `product_id` and `serial_number` |
| Enumerator.ScanEndIsFirstHalt | main.py:58-65 | The detail scan from `j` reads up to the first line at or after `j` that is malformed or names `iSerial`, or to the end |
| Enumerator.LastAssignedIsLast | main.py:58-64 | The value a range of lines gives a key is that of a line assigning it after which no line in the range assigns it; None exactly when no line in the range assigns it |
| Enumerator.ScanDetailsEffect | main.py:58-65 | A detail scan aborts exactly when the line that ends it is malformed (keeping what earlier lines set); each key ends with the value of the last line read that assigns it, or as it was |
| Enumerator.FirstAbortIsFirst | main.py:56-65 | The lsusb pass runs up to the first line naming the device whose detail scan aborts, or to the end |
| Enumerator.LastScanValueIsLast | main.py:56-65 | The value a range of scans gives a key is that of a scan assigning it after which no scan in the range assigns it; None exactly when none does |
| Enumerator.LsusbEffect | main.py:56-65 | Every line naming the device starts a detail scan at `lines.index(line)`; the pass aborts exactly when one of those scans aborts; each key ends with the value of the last scan that assigns it, so a later matching line wins, or is as it was |
| Enumerator.ScanStopsAtSerial | main.py:63-65 | A detail scan stops at the first `iSerial` line: lines after it cannot change the outcome |
| Enumerator.LsusbWithoutMatch | main.py:56-57 | When no line contains the device name, the record comes back unchanged and the pass finishes |
| Enumerator.EnrichKeepsBase | main.py:41-70 | Whatever the platform and however the side channel fails, enrichment changes only vendor, product and serial and drops no key |
| Enumerator.Included | main.py:26-30 | The admitted partitions (removable, non-empty fstype, usage query answered), no more than were listed |
| Enumerator.IncludedMembership | main.py:27-30 | A partition is admitted if and only if it is listed, its opts contain "removable", its fstype is non-empty and its usage query succeeds |
| Enumerator.CollectIsIncluded | main.py:26-39 | The k-th snapshot record is the enriched base record of the k-th admitted partition |
| Enumerator.CollectAppend | main.py:26-39 | Records follow partition order: the snapshot of `ps1 + ps2` is the snapshot of `ps1` followed by that of `ps2` |
| Enumerator.SnapshotRecords | main.py:25-39 | One record per admitted partition, in order, each with the partition's device, mount point, fstype and usage counts unchanged, plus at most the three enrichment keys |
| Enumerator.EnrichmentNeverDropsDevice | main.py:39-75 | With any side channel, failing or not, the snapshot has the same length as with none, and each record differs only in enrichment keys |
| Enumerator.SnapshotIds | main.py:25-39 | Every record has an id, and the snapshot's ids are exactly the devices of admitted partitions; the result is empty when the partition listing fails |
| Enumerator.EnrichFromWmi | main.py:46-50 | The WMI loop computes exactly the specification `WmiEnrich` |
| Enumerator.ScanDetailLines | main.py:58-65 | The detail loop, with its `break` and the IndexError exit, computes exactly `ScanDetails` |
| Enumerator.EnrichFromLsusb | main.py:55-65 | The nested lsusb loops compute exactly `LsusbEnrich` on the name with `/dev/` removed, and report whether an IndexError aborted them |
| Enumerator.EnrichDevice | main.py:42-70 | The platform dispatch computes exactly `Enrich`; a missing or failing side channel leaves the record as it was |
| Enumerator.GetConnectedUsbDevices | main.py:20-78 | The loop that appends and then enriches returns exactly `Snapshot`, and an empty list when listing partitions fails |
| EventLog.DecimalValue | main.py:84-86 | A numeric dictionary value is rendered in the f-string as `str(n)`: decimal digits whose positional value is `n`, with no leading zero unless `n` is 0 |
| EventLog.FormatFollowsFieldTable | main.py:84-86 | The message is "USB Device <type>: " followed by the six `label: value` fields in order, each missing key shown as N/A |
| EventLog.DisconnectedMessage | main.py:84-86 | For `{"device": id}` the message shows the id and N/A for the five other fields |
| EventLog.MessageReadsLoggedKeysOnly | main.py:84-86 | Records that agree on the six logged keys give the same message; usage counts never appear |
| Monitor.KnownIdsSilent | main.py:111-114 | When every id of the snapshot is already stored, the tick emits no Connected event |
| Monitor.ConnectedEventsMembers | main.py:110-114 | An event is a Connected event of the tick if and only if it carries an entry of the snapshot whose id was not stored |
| Monitor.ConnectedEventsAppend | main.py:112-114 | Connected events come in snapshot order |
| Monitor.ConnectedCount | main.py:108-114 | An id gets no Connected event if it was stored, else one per snapshot entry carrying it, and never a Disconnected event from this phase |
| Monitor.CountIdDistinct | main.py:108 | In a snapshot without repeated ids, each id occurs once if present and not at all otherwise |
| Monitor.DisconnectedEventsAt | main.py:117-121 | The i-th Disconnected event carries the record holding only the i-th visited id |
| Monitor.DisconnectedCount | main.py:117-121 | Each id gets as many Disconnected events as it is visited, and no Connected event from this phase |
| Monitor.TickEventCounts | main.py:108-121 | Over a whole tick, a stored id that vanished gets exactly one Disconnected event and every other id none; a new id gets one Connected event per snapshot entry |
| Monitor.ConnectedBeforeDisconnected | main.py:110-121 | Within a tick, no Connected event follows a Disconnected event |
| Monitor.SilentIffSameIds | main.py:108-124 | A tick emits no event if and only if the stored ids equal the snapshot's ids |
| Monitor.DisconnectedLogLines | main.py:118-121 | Each Disconnected log line reads "USB Device Disconnected: Device: <id>" followed by N/A for the five other fields |
| Monitor.PollState.constructor | main.py:102 | The stored set starts empty |
| Monitor.PollState.Tick | main.py:108-124 | The events are the Connected events of `current` followed by one Disconnected event per vanished id, in some order; the stored set becomes exactly the ids of `current` |
| Monitor.PollState.Poll | main.py:107-124 | The loop body runs the enumerator and then the tick; the stored set becomes the ids of the new snapshot |
| Monitor.RepeatedSnapshot | main.py:107-124 | Two consecutive ticks on the same snapshot: the second emits no event |
| Monitor.FirstTickReportsInOrder | main.py:110-114 | From an empty state, devices A and B give Connected(A), Connected(B) in that order |
| Monitor.OneDeviceRemoved | main.py:116-121 | After {A, B}, a snapshot holding only B gives exactly one event, Disconnected with `{"device": A}` |
| Monitor.RemountIsSilent | main.py:108-124 | A device seen again with the same id but different fields (a remount) gives no event |

## Left out

- Argument parsing, logging configuration and the `--debug` level switch (main.py:8-18, 93-99) are not modelled. They have no logic.
- The `while True` loop, `time.sleep` and the interrupt or error shutdown with its final log lines (main.py:104-133) are not modelled. Only a single tick (`PollState.Poll`, `PollState.Tick`) is.
- The warning and error lines logged when a query fails are not modelled, nor are timestamps and levels. Only the text of the event message is modelled.
- The real calls to `psutil`, `wmi` and `lsusb`, and the test on `os.name`, are not modelled. They become inputs (partition list, usage map, `Probe`).
- The script queries WMI or runs `lsusb` once per disk. The model gives every disk of one enumeration the same side-channel answer.
- Exception types are not modelled. A failure to list partitions is `None`. A failed usage query is a missing map entry. A failing side channel is a `None` probe. The IndexError on a line without "0x" is an `Aborted` outcome that keeps the fields already set. Each of these leads to the same result as the matching `except` clause.
- A WMI attribute that is `None` (which the message would render as "None") is not modelled. WMI fields are strings here.
- The dictionary that is appended to the list and then updated in place is modelled on values. The list's last element is overwritten with the enriched record.
- The order in which a Python set is iterated is not modelled. `Tick` picks vanished ids in an unspecified order and names it in a ghost `order`.
- A loop-level error, such as a snapshot entry without a `device` key, is not modelled. `Tick` requires every entry to have an id, and `Poll` proves that the enumerator always provides one.
- Text.RemoveAll: models `replace` only for a non-empty pattern, because the script only uses "/dev/".
