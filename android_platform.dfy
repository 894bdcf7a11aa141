/** Everything the Android platform supplies to the identifier logic, as one
    immutable input record: the SDK level, the granted permissions, the
    telephony-feature flag, the `Build` attributes, the telephony getters, the
    secure settings and the system-property store. */
module AndroidPlatform {
  import opened Wrappers

  /** A platform getter that returns a string: a value, `null` (`Done(None)`),
      or an exception (`Raised`). */
  type Lookup = Outcome<Option<string>>

  /** The static attributes of `android.os.Build`. */
  datatype BuildAttributes = BuildAttributes(
    id: string,
    serial: string,
    display: string,
    product: string,
    device: string,
    board: string,
    manufacturer: string,
    brand: string,
    model: string,
    bootloader: string,
    hardware: string,
    cpuAbi: string,
    cpuAbi2: string,
    tags: string,
    time: int,
    buildType: string,
    fingerprint: string,
    user: string,
    host: string,
    radio: string,
    supportedAbis: seq<string>,
    supported32BitAbis: seq<string>,
    supported64BitAbis: seq<string>)

  // `TelephonyManager.SIM_STATE_*`
  const SimStateUnknown := 0
  const SimStateAbsent := 1
  const SimStatePinRequired := 2
  const SimStatePukRequired := 3
  const SimStateNetworkLocked := 4
  const SimStateReady := 5

  /** What the bound `TelephonyManager` reports. */
  datatype Telephony = Telephony(
    simState: int,
    imei: Lookup,
    deviceId: Lookup,
    meid: Lookup,
    line1Number: Lookup,
    simSerialNumber: Lookup,
    subscriberId: Lookup,
    simCountryIso: Lookup,
    simOperator: Lookup,
    simCarrierId: int,
    simCarrierIdName: Lookup,
    simSpecificCarrierId: int,
    simSpecificCarrierIdName: Lookup,
    multiSimSupport: int)

  /** The platform as seen by one call of the identifier logic. */
  datatype Platform = Platform(
    sdk: int,                              // Build.VERSION.SDK_INT
    granted: set<string>,                  // permissions checkSelfPermission grants
    hasTelephony: bool,                    // hasSystemFeature("android.hardware.telephony")
    build: BuildAttributes,
    serialAccessor: Lookup,                // Build.getSerial()
    radioVersion: Option<string>,          // Build.getRadioVersion()
    secureAndroidId: Option<string>,       // Settings.Secure.getString(ANDROID_ID)
    telephony: Telephony,
    systemProperty: string -> Lookup)      // SystemPropertiesProxy[key]
}
