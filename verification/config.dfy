/** The build-time configuration table: `DEVICE_ID` selects the role, the
    host name and the load-cell calibration; the radio constants are fixed. */
module Config {
  import opened Wrappers
  import opened Numeric

  /** A 6-byte radio (MAC) address. */
  type MacAddress = s: seq<uint8> | |s| == 6 witness [0, 0, 0, 0, 0, 0]

  /** What one branch of the `#if DEVICE_ID == ...` chain defines. The macro
      `ESPNOW_IS_PARENT` is 1 on the parent and 0 on a child. */
  datatype DeviceConfig = DeviceConfig(isParent: bool, hostname: string, calibrationFactor: real)

  /** The `#if` chain: 0 is the parent, 1..4 are the four children, and any
      other id hits `#error`, i.e. the build is rejected (`None`). */
  function ConfigFor(deviceId: int): (r: Option<DeviceConfig>)
    ensures r.Some? <==> 0 <= deviceId <= 4
    ensures r.Some? ==> (r.value.isParent <==> deviceId == 0)
    ensures deviceId == 0 ==> r == Some(DeviceConfig(true, "LaunchScale", 0.0))
    ensures deviceId == 1 ==> r.value.hostname == "Yellow"
    ensures deviceId == 2 ==> r.value.hostname == "Grey"
    ensures deviceId == 3 ==> r.value.hostname == "Purple"
    ensures deviceId == 4 ==> r.value.hostname == "Black"
  {
    if deviceId == 0 then Some(DeviceConfig(true, "LaunchScale", 0.0))
    else if deviceId == 1 then Some(DeviceConfig(false, "Yellow", 2128.66))
    else if deviceId == 2 then Some(DeviceConfig(false, "Grey", 1979.4))
    else if deviceId == 3 then Some(DeviceConfig(false, "Purple", 2000.0))
    else if deviceId == 4 then Some(DeviceConfig(false, "Black", 1106.69))
    else None
  }

  /** Whether the macro `ESPNOW_IS_PARENT` is defined once the chain has been
      processed: every accepted branch defines it, to 1 or to 0. */
  predicate IsParentMacroDefined(deviceId: int)
  {
    ConfigFor(deviceId).Some?
  }

  /** `TARE_BUTTON_PIN` as written: `#ifdef ESPNOW_IS_PARENT` asks whether the
      macro is defined, not whether it is 1, so every accepted build takes the
      first branch and the pin is 14, on children too. */
  function TareButtonPin(deviceId: int): (pin: int)
    requires ConfigFor(deviceId).Some?
    ensures pin == 14
  {
    if IsParentMacroDefined(deviceId) then 14 else 15
  }

  /** `TARE_BUTTON_PIN` as the comments beside it describe it: 14 on the parent
      (whose pin 15 is broken) and the normal pin 15 on every child, which is
      what `#if ESPNOW_IS_PARENT` would select. */
  function IntendedTareButtonPin(deviceId: int): (pin: int)
    requires ConfigFor(deviceId).Some?
    ensures pin == 14 <==> deviceId == 0
    ensures deviceId != 0 ==> pin == 15
  {
    if ConfigFor(deviceId).value.isParent then 14 else 15
  }

  /** A child build (DEVICE_ID 1) gets pin 14 from the `#ifdef` where 15 was meant. */
  lemma TareButtonPinChildDiffers()
    ensures TareButtonPin(1) == 14 && IntendedTareButtonPin(1) == 15
  {
  }

  /** `ESPNOW_CHANNEL` */
  const ESPNOW_CHANNEL: int := 6

  /** `PARENT_MAC_ADDR`, the one peer a child sends to. */
  const PARENT_MAC_ADDR: MacAddress := [0xa0, 0xdd, 0x6c, 0x02, 0xfb, 0xa4]

  /** The broadcast address the parent sends tare commands to. */
  const BROADCAST_MAC_ADDR: MacAddress := [0xFF, 0xFF, 0xFF, 0xFF, 0xFF, 0xFF]

  /** The parent's address is a unicast address, distinct from broadcast. */
  lemma ParentIsNotBroadcast()
    ensures PARENT_MAC_ADDR != BROADCAST_MAC_ADDR
  {
    assert PARENT_MAC_ADDR[0] != BROADCAST_MAC_ADDR[0];
  }
}
