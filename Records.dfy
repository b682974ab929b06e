/**
 * The device dictionary (`device_info`) that the enumerator builds and the
 * poll loop logs: string keys mapped to strings or byte counts.
 */
module Records {

  /** A dictionary value: text, or a byte count from the usage query. */
  datatype Value = Str(s: string) | Num(n: nat)

  type Record = map<string, Value>

  const DEVICE := "device"
  const MOUNTPOINT := "mountpoint"
  const FSTYPE := "fstype"
  const TOTAL := "total"
  const USED := "used"
  const FREE := "free"
  const VENDOR_ID := "vendor_id"
  const PRODUCT_ID := "product_id"
  const SERIAL_NUMBER := "serial_number"

  /** The keys set when a device enters the snapshot. */
  const BASE_KEYS: set<string> := {DEVICE, MOUNTPOINT, FSTYPE, TOTAL, USED, FREE}

  /** The keys that best-effort enrichment may set afterwards. */
  const ENRICHMENT_KEYS: set<string> := {VENDOR_ID, PRODUCT_ID, SERIAL_NUMBER}

  lemma EnrichmentKeysDistinct()
    ensures VENDOR_ID != PRODUCT_ID && VENDOR_ID != SERIAL_NUMBER && PRODUCT_ID != SERIAL_NUMBER
  {
    assert VENDOR_ID[0] == 'v' && PRODUCT_ID[0] == 'p' && SERIAL_NUMBER[0] == 's';
  }

  /** The record has a textual `device` entry, the identity the poll loop compares. */
  predicate HasId(r: Record) {
    DEVICE in r && r[DEVICE].Str?
  }

  function Id(r: Record): string
    requires HasId(r)
  {
    r[DEVICE].s
  }

  /** `{dev['device'] for dev in devices}`. */
  function Ids(devices: seq<Record>): set<string>
    requires forall d :: d in devices ==> HasId(d)
  {
    set d | d in devices :: Id(d)
  }

  /** `a` and `b` have the same entries for every key outside `keys`. */
  ghost predicate SameOutside(a: Record, b: Record, keys: set<string>) {
    forall k :: k !in keys ==> (k in a <==> k in b) && (k in a ==> a[k] == b[k])
  }
}
