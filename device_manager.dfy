/**
 * Device identity and role over the device's key-value preferences: the
 * persistent device id (regenerated when it has the old underscore format),
 * the display name, the role and its capabilities, and the sync switch.
 */
module Devices {
  import opened Wrappers
  import opened Strings

  const KEY_DEVICE_ID := "device_id"
  const KEY_DEVICE_NAME := "device_name"
  const KEY_DEVICE_ROLE := "device_role"
  const KEY_IS_SYNC_ENABLED := "is_sync_enabled"

  const ROLE_BILLER := "BILLER"
  const ROLE_COLLECTOR := "COLLECTOR"
  const ROLE_BOTH := "BOTH"

  /** The role values a peer can advertise. */
  datatype DeviceRole = Biller | Collector | Both

  /** Kotlin string templates print a null platform string as "null". */
  function TemplateText(s: Option<string>): string {
    match s
    case None => "null"
    case Some(t) => t
  }

  /**
   * The id getDeviceId returns: a stored id without '_' is kept; otherwise the
   * Android id, a '-', and the first eight characters of a fresh UUID.
   */
  function ResolvedId(stored: Option<string>, androidId: Option<string>, uuid: string): (id: string)
    requires |uuid| >= 8
  {
    if stored.Some? && '_' !in stored.value then stored.value
    else TemplateText(androidId) + "-" + uuid[..8]
  }

  /** True when getDeviceId writes a new id. */
  predicate Regenerates(stored: Option<string>) {
    stored.None? || '_' in stored.value
  }

  /** A regenerated id has the documented shape, and when its parts have no '_' neither has the id. */
  lemma RegeneratedIdShape(stored: Option<string>, androidId: Option<string>, uuid: string)
    requires |uuid| >= 8 && Regenerates(stored)
    ensures var id := ResolvedId(stored, androidId, uuid);
      && id == TemplateText(androidId) + "-" + uuid[..8]
      && ('_' !in TemplateText(androidId) && '_' !in uuid[..8] ==> '_' !in id)
  {
  }

  /**
   * Once an underscore-free id is stored, every later call returns it, whatever
   * the Android id and UUID of that call.
   */
  lemma ResolvedIdStable(stored: Option<string>, a: Option<string>, u: string, a2: Option<string>, u2: string)
    requires |u| >= 8 && |u2| >= 8
    requires '_' !in TemplateText(a) && '_' !in u[..8]
    ensures var id := ResolvedId(stored, a, u);
      && '_' !in id
      && ResolvedId(Some(id), a2, u2) == id
  {
    var id := ResolvedId(stored, a, u);
    if Regenerates(stored) {
      assert id == TemplateText(a) + "-" + u[..8];
    }
  }

  /** The generated display name: "MRP Device " and the last eight characters of the id. */
  function DefaultName(id: string): (name: string)
    ensures |name| >= 11 && name[..11] == "MRP Device "
    ensures name[11..] == TakeLast(id, 8) && |name| <= 19
  {
    "MRP Device " + TakeLast(id, 8)
  }

  /** The capabilities of a role string; an unknown role has neither. */
  predicate CanCreate(role: string) {
    role == ROLE_BILLER || role == ROLE_BOTH
  }

  predicate CanScan(role: string) {
    role == ROLE_COLLECTOR || role == ROLE_BOTH
  }

  /** Each of the three known roles grants at least one capability, and only BOTH grants both. */
  lemma RoleCapabilities(role: string)
    ensures role in {ROLE_BILLER, ROLE_COLLECTOR, ROLE_BOTH} <==> (CanCreate(role) || CanScan(role))
    ensures CanCreate(role) && CanScan(role) <==> role == ROLE_BOTH
  {
  }

  /** The device's preferences and the operations over them. */
  class DeviceManager {
    var strings: map<string, string>
    var flags: map<string, bool>

    constructor (strings: map<string, string>, flags: map<string, bool>)
      ensures this.strings == strings && this.flags == flags
    {
      this.strings := strings;
      this.flags := flags;
    }

    /** `prefs.getString(key, null)`. */
    function Stored(key: string): (r: Option<string>)
      reads this
      ensures r.Some? <==> key in strings
      ensures r.Some? ==> r.value == strings[key]
    {
      if key in strings then Some(strings[key]) else None
    }

    /** getDeviceId: the Android id and the UUID text are what the platform supplies on this call. */
    method GetDeviceId(androidId: Option<string>, uuid: string) returns (id: string)
      requires |uuid| >= 8
      modifies this`strings
      ensures id == ResolvedId(old(Stored(KEY_DEVICE_ID)), androidId, uuid)
      ensures strings == if Regenerates(old(Stored(KEY_DEVICE_ID))) then old(strings)[KEY_DEVICE_ID := id] else old(strings)
    {
      var deviceId := Stored(KEY_DEVICE_ID);
      if deviceId.None? || '_' in deviceId.value {
        var generated := TemplateText(androidId) + "-" + uuid[..8];
        deviceId := Some(generated);
        strings := strings[KEY_DEVICE_ID := generated];
      }
      id := deviceId.value;
    }

    /** getDeviceName: the stored name, or the generated one, which is then stored. */
    method GetDeviceName(androidId: Option<string>, uuid: string) returns (name: string)
      requires |uuid| >= 8
      modifies this`strings
      ensures KEY_DEVICE_NAME in strings && strings[KEY_DEVICE_NAME] == name
      ensures old(Stored(KEY_DEVICE_NAME)).Some? ==> name == old(strings[KEY_DEVICE_NAME]) && strings == old(strings)
      ensures old(Stored(KEY_DEVICE_NAME)).None? ==>
        var id := ResolvedId(old(Stored(KEY_DEVICE_ID)), androidId, uuid);
        name == DefaultName(id)
        && strings == (if Regenerates(old(Stored(KEY_DEVICE_ID))) then old(strings)[KEY_DEVICE_ID := id] else old(strings))[KEY_DEVICE_NAME := name]
    {
      var stored := Stored(KEY_DEVICE_NAME);
      if stored.Some? {
        name := stored.value;
      } else {
        var id := GetDeviceId(androidId, uuid);
        name := DefaultName(id);
        SetDeviceName(name);
      }
    }

    method SetDeviceName(name: string)
      modifies this`strings
      ensures strings == old(strings)[KEY_DEVICE_NAME := name]
    {
      strings := strings[KEY_DEVICE_NAME := name];
    }

    /** getDeviceRole: the stored role, "BOTH" by default. */
    function GetDeviceRole(): (role: string)
      reads this
      ensures KEY_DEVICE_ROLE !in strings ==> role == ROLE_BOTH
      ensures KEY_DEVICE_ROLE in strings ==> role == strings[KEY_DEVICE_ROLE]
    {
      Stored(KEY_DEVICE_ROLE).GetOr(ROLE_BOTH)
    }

    method SetDeviceRole(role: string)
      modifies this`strings
      ensures strings == old(strings)[KEY_DEVICE_ROLE := role]
      ensures GetDeviceRole() == role
    {
      strings := strings[KEY_DEVICE_ROLE := role];
    }

    /** canCreateReceipts: a biller or a dual-role device, which a device with no stored role is. */
    function CanCreateReceipts(): (can: bool)
      reads this
      ensures can <==> GetDeviceRole() == ROLE_BILLER || GetDeviceRole() == ROLE_BOTH
      ensures KEY_DEVICE_ROLE !in strings ==> can
    {
      CanCreate(GetDeviceRole())
    }

    /** canScanReceipts: a collector or a dual-role device, which a device with no stored role is. */
    function CanScanReceipts(): (can: bool)
      reads this
      ensures can <==> GetDeviceRole() == ROLE_COLLECTOR || GetDeviceRole() == ROLE_BOTH
      ensures KEY_DEVICE_ROLE !in strings ==> can
    {
      CanScan(GetDeviceRole())
    }

    /** isSyncEnabled: true unless switched off. */
    function IsSyncEnabled(): (enabled: bool)
      reads this
      ensures KEY_IS_SYNC_ENABLED !in flags ==> enabled
      ensures KEY_IS_SYNC_ENABLED in flags ==> enabled == flags[KEY_IS_SYNC_ENABLED]
    {
      if KEY_IS_SYNC_ENABLED in flags then flags[KEY_IS_SYNC_ENABLED] else true
    }

    method SetSyncEnabled(enabled: bool)
      modifies this`flags
      ensures flags == old(flags)[KEY_IS_SYNC_ENABLED := enabled]
      ensures IsSyncEnabled() == enabled
    {
      flags := flags[KEY_IS_SYNC_ENABLED := enabled];
    }
  }

  /** A device with no preferences yet: role BOTH, so it may both bill and scan, and sync is on. */
  lemma FreshDeviceDefaults(m: DeviceManager)
    requires m.strings == map[] && m.flags == map[]
    ensures m.GetDeviceRole() == ROLE_BOTH
    ensures m.CanCreateReceipts() && m.CanScanReceipts() && m.IsSyncEnabled()
  {
  }
}
