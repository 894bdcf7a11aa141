/** The identifier-resolution logic of the `DeviceManagement` object: the
    validation rule, the serial-number fallback chain, the SIM and telephony
    gates, the SIM and build snapshots, the pseudo-identifier and its digest.
    Every operation reads the bound platform, passed in as a `Platform`. */
module DeviceManagement {
  import opened Wrappers
  import opened Text
  import opened Encoding
  import opened BuildVersionExt
  import opened PermissionUtils
  import opened CollectionExt
  import opened AndroidPlatform

  /** `Build.UNKNOWN`, the value the platform reports for an unknown property. */
  const Unknown := "unknown"

  const ReadPhoneState := "android.permission.READ_PHONE_STATE"
  const ReadPrivilegedPhoneState := "android.permission.READ_PRIVILEGED_PHONE_STATE"
  const ReadPhonePermissions := [ReadPhoneState, ReadPrivilegedPhoneState]

  /** The any-of phone-state gate used by the serial and digest operations. */
  predicate CanReadPhoneState(p: Platform) {
    AnyGranted(p.granted, ReadPhonePermissions)
  }

  lemma CanReadPhoneStateIff(p: Platform)
    ensures CanReadPhoneState(p) <==> ReadPhoneState in p.granted || ReadPrivilegedPhoneState in p.granted
  {
    if ReadPhoneState in p.granted {
      assert ReadPhonePermissions[0] in p.granted;
    } else if ReadPrivilegedPhoneState in p.granted {
      assert ReadPhonePermissions[1] in p.granted;
    }
  }

  // ---------------------------------------------------------------------------
  // Binding

  /** The process-wide object. Its `lateinit` telephony binding is modelled by
      `context`: `None` until the first `invoke`, then the bound platform. */
  class DeviceManagementObject {
    var context: Option<Platform>

    constructor ()
      ensures context == None
    {
      context := None;
    }

    /** `invoke(context)`: binds only while nothing is bound yet. */
    method Invoke(c: Platform)
      modifies this
      ensures old(context).None? ==> context == Some(c)
      ensures old(context).Some? ==> context == old(context)
    {
      if context.None? {
        Build(c);
      }
    }

    /** `build(context)`: records the platform and its telephony service. */
    method Build(c: Platform)
      modifies this
      ensures context == Some(c)
    {
      context := Some(c);
    }

    /** `identify`: the MD5 strategy; it needs a bound platform. */
    method Identify(md5: seq<Int8> -> seq<Int8>) returns (id: string)
      requires context.Some?
      ensures id == DeviceUniqueId(context.value, md5)
    {
      id := GetDeviceUniqueId(context.value, md5);
    }
  }

  // ---------------------------------------------------------------------------
  // Validation

  /** `String?.isNullOrEmpty()`. */
  predicate IsNullOrEmpty(value: Option<string>) {
    value.None? || value.value == ""
  }

  /** `validateValue(value, valueToCompare = null)`: a candidate is usable
      when it is not null, not empty, not `Build.UNKNOWN` and not the
      excluded value. Blankness is not checked. */
  predicate ValidateValue(value: Option<string>, valueToCompare: Option<string> := None)
    ensures ValidateValue(value, valueToCompare) <==>
              value.Some? && |value.value| > 0 && value.value != Unknown &&
              (valueToCompare.Some? ==> valueToCompare.value != value.value)
  {
    !IsNullOrEmpty(value) && value != Some(Unknown) && value != valueToCompare
  }

  /** A whitespace-only candidate passes; the sentinel and the excluded value
      never do. */
  lemma ValidateValueCases(v: string, excluded: Option<string>)
    ensures ValidateValue(Some(" "))
    ensures !ValidateValue(Some(Unknown), excluded)
    ensures !ValidateValue(Some(v), Some(v))
    ensures !ValidateValue(None, excluded)
  {
  }

  // ---------------------------------------------------------------------------
  // Serial number

  /** The system-property keys tried, in order, for the serial number. */
  const SerialNumberKeys := ["ril.serialnumber", "ro.serialno", "ro.boot.serialno", "sys.serialnumber"]

  /** The first valid value among the lookups of `keys`, in order. One `try`
      wraps all lookups, so a lookup that throws ends the search with null. */
  function FirstValid(lookup: string -> Lookup, keys: seq<string>): (r: Option<string>)
    ensures r.Some? ==> ValidateValue(r)
  {
    if |keys| == 0 then None
    else
      match lookup(keys[0])
      case Raised => None
      case Done(v) => if ValidateValue(v) then v else FirstValid(lookup, keys[1..])
  }

  /** Every one of the first `n` lookups returned a value that failed validation. */
  ghost predicate RejectedUpTo(lookup: string -> Lookup, keys: seq<string>, n: nat)
    requires n <= |keys|
  {
    forall j :: 0 <= j < n ==> lookup(keys[j]).Done? && !ValidateValue(lookup(keys[j]).value)
  }

  /** Once every earlier key was rejected, the key at `i` decides: a valid
      value there is the result, a thrown lookup there makes it null. */
  lemma {:induction false} FirstValidDecidedAt(lookup: string -> Lookup, keys: seq<string>, i: nat)
    requires i < |keys|
    requires RejectedUpTo(lookup, keys, i)
    ensures lookup(keys[i]).Done? && ValidateValue(lookup(keys[i]).value) ==>
              FirstValid(lookup, keys) == lookup(keys[i]).value
    ensures lookup(keys[i]).Raised? ==> FirstValid(lookup, keys) == None
  {
    if i > 0 {
      assert lookup(keys[0]).Done? && !ValidateValue(lookup(keys[0]).value);
      assert RejectedUpTo(lookup, keys[1..], i - 1) by {
        forall j | 0 <= j < i - 1
          ensures lookup(keys[1..][j]).Done? && !ValidateValue(lookup(keys[1..][j]).value)
        {
          assert keys[1..][j] == keys[j + 1];
        }
      }
      FirstValidDecidedAt(lookup, keys[1..], i - 1);
      assert keys[1..][i - 1] == keys[i];
    }
  }

  /** When every lookup returned an invalid value, the result is null. */
  lemma {:induction false} FirstValidExhausted(lookup: string -> Lookup, keys: seq<string>)
    requires RejectedUpTo(lookup, keys, |keys|)
    ensures FirstValid(lookup, keys) == None
  {
    if |keys| > 0 {
      assert lookup(keys[0]).Done? && !ValidateValue(lookup(keys[0]).value);
      assert RejectedUpTo(lookup, keys[1..], |keys| - 1) by {
        forall j | 0 <= j < |keys| - 1
          ensures lookup(keys[1..][j]).Done? && !ValidateValue(lookup(keys[1..][j]).value)
        {
          assert keys[1..][j] == keys[j + 1];
        }
      }
      FirstValidExhausted(lookup, keys[1..]);
    }
  }

  /** A non-null result is the value of some key whose predecessors were all
      looked up without exception and rejected. */
  lemma {:induction false} FirstValidSource(lookup: string -> Lookup, keys: seq<string>)
    ensures FirstValid(lookup, keys).Some? ==>
              exists i :: 0 <= i < |keys| && RejectedUpTo(lookup, keys, i) &&
                          lookup(keys[i]) == Done(FirstValid(lookup, keys))
  {
    if |keys| > 0 && FirstValid(lookup, keys).Some? {
      var r := FirstValid(lookup, keys);
      if lookup(keys[0]) == Done(r) {
        assert RejectedUpTo(lookup, keys, 0);
      } else {
        assert lookup(keys[0]).Done? && !ValidateValue(lookup(keys[0]).value);
        FirstValidSource(lookup, keys[1..]);
        var i :| 0 <= i < |keys| - 1 && RejectedUpTo(lookup, keys[1..], i) &&
                 lookup(keys[1..][i]) == Done(r);
        assert keys[1..][i] == keys[i + 1];
        assert RejectedUpTo(lookup, keys, i + 1) by {
          forall j | 0 <= j < i + 1
            ensures lookup(keys[j]).Done? && !ValidateValue(lookup(keys[j]).value)
          {
            if j > 0 {
              assert keys[j] == keys[1..][j - 1];
            }
          }
        }
      }
    }
  }

  /** What `serialNumberBySysProp()` returns. */
  function SerialBySysProp(p: Platform): Option<string> {
    if !CanReadPhoneState(p) then None
    else FirstValid(p.systemProperty, SerialNumberKeys)
  }

  /** `serialNumberBySysProp()`: without the any-of phone-state permission it
      returns null without any lookup; otherwise it tries the four keys in
      order, reassigning `sn`, and stops at the first valid value or at the
      first exception. `consulted` lists the keys looked up. */
  method SerialNumberBySysProp(p: Platform) returns (sn: Option<string>, ghost consulted: seq<string>)
    ensures sn == SerialBySysProp(p)
    ensures sn.Some? ==> ValidateValue(sn)
    ensures !CanReadPhoneState(p) ==> consulted == []
    ensures consulted <= SerialNumberKeys
    ensures sn.Some? ==> |consulted| > 0 && p.systemProperty(consulted[|consulted| - 1]) == Done(sn)
  {
    sn := None;
    consulted := [];
    var allowed := HasPermissionSome(p.granted, ReadPhonePermissions);
    if !allowed {
      return;
    }
    var keys := SerialNumberKeys;
    var i := 0;
    var threw := false;
    while i < |keys| && !threw
      invariant 0 <= i <= |keys|
      invariant threw ==> i < |keys| && p.systemProperty(keys[i]).Raised?
      invariant consulted == keys[..i] + (if threw then [keys[i]] else [])
      invariant RejectedUpTo(p.systemProperty, keys, i)
      invariant !ValidateValue(sn)
      decreases |keys| - i, !threw
    {
      var attempt := p.systemProperty(keys[i]);
      if attempt.Raised? {
        consulted := consulted + [keys[i]];
        threw := true;
      } else {
        consulted := consulted + [keys[i]];
        sn := attempt.value;
        if ValidateValue(sn) {
          FirstValidDecidedAt(p.systemProperty, keys, i);
          assert consulted == keys[..i + 1];
          return;
        }
        i := i + 1;
      }
    }
    if threw {
      FirstValidDecidedAt(p.systemProperty, keys, i);
      assert consulted == keys[..i + 1];
    } else {
      FirstValidExhausted(p.systemProperty, keys);
      assert consulted == keys;
    }
    sn := if ValidateValue(sn) then sn else None;
  }

  /** `serialNumberByBuild()`: gated by the any-of phone-state permission; it
      reads `getSerial()` from Android O on and the `SERIAL` field up to
      N_MR1, and keeps the value only if it is valid. `getSerial()` is not
      inside a `try`, so its exception propagates. */
  function SerialNumberByBuild(p: Platform): (r: Outcome<Option<string>>)
    ensures !CanReadPhoneState(p) ==> r == Done(None)
    ensures r.Done? && r.value.Some? ==> ValidateValue(r.value)
    ensures r.Raised? <==> CanReadPhoneState(p) && IsAtLeastApi26(p.sdk) && p.serialAccessor.Raised?
  {
    if !CanReadPhoneState(p) then Done(None)
    else
      var sn :- if IsAtLeastApi26(p.sdk) then p.serialAccessor
                else if IsAtEqualOrMinusApi25(p.sdk) then Done(Some(p.build.serial))
                else Done(None);
      Done(if ValidateValue(sn) then sn else None)
  }

  /** With the permission, exactly one build source is read, chosen by the
      SDK level. */
  lemma SerialNumberByBuildSource(p: Platform)
    requires CanReadPhoneState(p)
    ensures IsAtLeastApi26(p.sdk) && p.serialAccessor.Done? ==>
              SerialNumberByBuild(p) ==
                Done(if ValidateValue(p.serialAccessor.value) then p.serialAccessor.value else None)
    ensures !IsAtLeastApi26(p.sdk) ==>
              SerialNumberByBuild(p) ==
                Done(if ValidateValue(Some(p.build.serial)) then Some(p.build.serial) else None)
  {
  }

  /** `serialNumber`: the build path first; the system-property path only when
      the build path gives no valid value; "" when both fail. */
  function SerialNumber(p: Platform): (r: Outcome<string>)
    ensures r.Done? ==> r.value == "" || ValidateValue(Some(r.value))
    ensures r.Raised? <==> SerialNumberByBuild(p).Raised?
  {
    var fromBuild :- SerialNumberByBuild(p);
    var serial := fromBuild.GetOr("");
    if !ValidateValue(Some(serial)) then Done(SerialBySysProp(p).GetOr(""))
    else Done(serial)
  }

  /** A valid build serial wins without consulting system properties; a
      missing one falls back to them; no permission gives "". */
  lemma SerialNumberOrder(p: Platform)
    ensures SerialNumberByBuild(p).Done? && SerialNumberByBuild(p).value.Some? ==>
              SerialNumber(p) == Done(SerialNumberByBuild(p).value.value)
    ensures SerialNumberByBuild(p) == Done(None) ==>
              SerialNumber(p) == Done(SerialBySysProp(p).GetOr(""))
    ensures !CanReadPhoneState(p) ==> SerialNumber(p) == Done("")
  {
  }

  // ---------------------------------------------------------------------------
  // SIM state and telephony accessors

  /** The `when` over `telMgr.simState`: only SIM_STATE_READY counts. */
  predicate SimIsReady(state: int) {
    if state == SimStateAbsent then false
    else if state == SimStateNetworkLocked then false
    else if state == SimStatePinRequired then false
    else if state == SimStatePukRequired then false
    else if state == SimStateReady then true
    else if state == SimStateUnknown then false
    else false
  }

  /** `isSIMAvailable`: READ_PHONE_STATE is granted and the SIM is ready. */
  predicate IsSimAvailable(p: Platform)
    ensures IsSimAvailable(p) <==> ReadPhoneState in p.granted && p.telephony.simState == SimStateReady
  {
    if !HasPermission(p.granted, ReadPhoneState) then false
    else SimIsReady(p.telephony.simState)
  }

  /** The guard of every telephony accessor: `isSIMAvailable && hasTelephony()`. */
  predicate TelephonyReadable(p: Platform) {
    IsSimAvailable(p) && p.hasTelephony
  }

  /** A telephony getter called inside the accessors' `try`: an exception,
      or a null that fails Kotlin's non-null check on the `String` return,
      is caught and the accessor returns "". */
  function ValueOrEmpty(l: Lookup): (s: string)
    ensures s != "" ==> l == Done(Some(s))
    ensures l.Done? && l.value.Some? ==> s == l.value.value
  {
    match l
    case Done(Some(v)) => v
    case _ => ""
  }

  /** The getter `imei` reads: `imei` from Android O on, else `deviceId`. */
  function ImeiSource(p: Platform): Lookup {
    if IsAtLeastApi26(p.sdk) then p.telephony.imei else p.telephony.deviceId
  }

  /** `imei`. */
  function Imei(p: Platform): (r: string)
    ensures r != "" ==> TelephonyReadable(p) && ImeiSource(p) == Done(Some(r))
    ensures TelephonyReadable(p) && ImeiSource(p).Done? && ImeiSource(p).value.Some? ==>
              r == ImeiSource(p).value.value
  {
    if TelephonyReadable(p) then
      if IsAtLeastApi26(p.sdk) then ValueOrEmpty(p.telephony.imei)
      else ValueOrEmpty(p.telephony.deviceId)
    else ""
  }

  /** `meid`: only from Android O on. */
  function Meid(p: Platform): (r: string)
    ensures r != "" ==> TelephonyReadable(p) && IsAtLeastApi26(p.sdk) && p.telephony.meid == Done(Some(r))
    ensures !IsAtLeastApi26(p.sdk) ==> r == ""
  {
    if TelephonyReadable(p) && IsAtLeastApi26(p.sdk) then ValueOrEmpty(p.telephony.meid)
    else ""
  }

  /** `phoneNumber`: `line1Number` under the telephony guard. */
  function PhoneNumber(p: Platform): (r: string)
    ensures r != "" ==> TelephonyReadable(p) && p.telephony.line1Number == Done(Some(r))
  {
    if TelephonyReadable(p) then ValueOrEmpty(p.telephony.line1Number) else ""
  }

  /** `simSerialNumber` under the telephony guard. */
  function SimSerialNumber(p: Platform): (r: string)
    ensures r != "" ==> TelephonyReadable(p) && p.telephony.simSerialNumber == Done(Some(r))
  {
    if TelephonyReadable(p) then ValueOrEmpty(p.telephony.simSerialNumber) else ""
  }

  /** `subscriberId` under the telephony guard. */
  function SubscriberId(p: Platform): (r: string)
    ensures r != "" ==> TelephonyReadable(p) && p.telephony.subscriberId == Done(Some(r))
  {
    if TelephonyReadable(p) then ValueOrEmpty(p.telephony.subscriberId) else ""
  }

  /** Once the guard holds, each accessor passes a non-null value through. */
  lemma TelephonyAccessorsPassValues(p: Platform)
    requires TelephonyReadable(p)
    ensures p.telephony.line1Number.Done? && p.telephony.line1Number.value.Some? ==>
              PhoneNumber(p) == p.telephony.line1Number.value.value
    ensures p.telephony.simSerialNumber.Done? && p.telephony.simSerialNumber.value.Some? ==>
              SimSerialNumber(p) == p.telephony.simSerialNumber.value.value
    ensures p.telephony.subscriberId.Done? && p.telephony.subscriberId.value.Some? ==>
              SubscriberId(p) == p.telephony.subscriberId.value.value
    ensures IsAtLeastApi26(p.sdk) && p.telephony.meid.Done? && p.telephony.meid.value.Some? ==>
              Meid(p) == p.telephony.meid.value.value
  {
  }

  // ---------------------------------------------------------------------------
  // androidId

  /** `androidId`: the secure setting when valid; otherwise, with
      READ_PHONE_STATE, the telephony `deviceId`, and without it the invalid
      setting as it is. The getter is not inside a `try`: a thrown `deviceId`
      propagates, and so does a null, which fails Kotlin's non-null check on
      the `String` return. */
  function AndroidId(p: Platform): (r: Outcome<string>)
    ensures ValidateValue(p.secureAndroidId) ==> r == Done(p.secureAndroidId.value)
    ensures !ValidateValue(p.secureAndroidId) && ReadPhoneState in p.granted ==>
              r == (match p.telephony.deviceId
                    case Done(Some(d)) => Done(d)
                    case _ => Raised)
    ensures !ValidateValue(p.secureAndroidId) && ReadPhoneState !in p.granted ==>
              r == (if p.secureAndroidId.Some? then Done(p.secureAndroidId.value) else Raised)
  {
    var dId := p.secureAndroidId;
    if ValidateValue(dId) then Done(dId.value)
    else
      var fallback :- if HasPermission(p.granted, ReadPhoneState) then p.telephony.deviceId else Done(dId);
      if fallback.Some? then Done(fallback.value) else Raised
  }

  // ---------------------------------------------------------------------------
  // allSimInfo

  const SimInfoBaseKeys: set<string> :=
    {"phoneNumber", "simCountryIso", "simOperator", "simState", "simSerialNumber", "getSimState"}
  const SimCarrierKeys: set<string> := {"simCarrierId", "simCarrierIdName"}
  const SimSpecificCarrierKeys: set<string> :=
    {"simSpecificCarrierId", "simSpecificCarrierIdName", "isMultiSimSupported"}

  /** The keys `allSimInfo` has at SDK level `sdk`. */
  function SimInfoKeys(sdk: int): set<string> {
    SimInfoBaseKeys
    + (if IsAtLeastApi28(sdk) then SimCarrierKeys else {})
    + (if IsAtLeastApi29(sdk) then SimSpecificCarrierKeys else {})
  }

  /** Kotlin's `CharSequence?.toString()`: "null" for null. */
  function NullableToString(s: Option<string>): string {
    match s
    case Some(v) => v
    case None => "null"
  }

  /** `allSimInfo`: null unless the telephony guard holds; otherwise an
      `ArrayMap` of the six base fields, extended with the carrier-id fields
      from Android P and the specific-carrier and multi-SIM fields from
      Android Q. No `try` surrounds it, so a getter's exception propagates. */
  function AllSimInfo(p: Platform): (r: Outcome<Option<map<string, Option<string>>>>)
    ensures !TelephonyReadable(p) ==> r == Done(None)
    ensures r.Done? ==> (r.value.Some? <==> TelephonyReadable(p))
    ensures r.Done? && r.value.Some? ==> TelephonyReadable(p) && r.value.value.Keys == SimInfoKeys(p.sdk)
    ensures r.Raised? <==>
              TelephonyReadable(p) &&
              (|| p.telephony.line1Number.Raised?
               || p.telephony.simCountryIso.Raised?
               || p.telephony.simOperator.Raised?
               || p.telephony.simSerialNumber.Raised?
               || (IsAtLeastApi28(p.sdk) && p.telephony.simCarrierIdName.Raised?)
               || (IsAtLeastApi29(p.sdk) && p.telephony.simSpecificCarrierIdName.Raised?))
  {
    if !IsSimAvailable(p) || !p.hasTelephony then Done(None)
    else
      var t := p.telephony;
      var phone :- t.line1Number;
      var iso :- t.simCountryIso;
      var operator :- t.simOperator;
      var serial :- t.simSerialNumber;
      var state := Some(IntToString(t.simState));
      var pairs := [("phoneNumber", phone), ("simCountryIso", iso), ("simOperator", operator),
                    ("simState", state), ("simSerialNumber", serial), ("getSimState", state)];
      var base := FromPairs(pairs);
      assert base.Keys == SimInfoBaseKeys by {
        FromPairsKeys(pairs);
        assert KeysOf(pairs) == SimInfoBaseKeys by {
          assert pairs[0].0 == "phoneNumber" && pairs[1].0 == "simCountryIso";
          assert pairs[2].0 == "simOperator" && pairs[3].0 == "simState";
          assert pairs[4].0 == "simSerialNumber" && pairs[5].0 == "getSimState";
        }
      }
      var withCarrier :-
        if IsAtLeastApi28(p.sdk) then
          var name :- t.simCarrierIdName;
          Done(base["simCarrierId" := Some(IntToString(t.simCarrierId))]["simCarrierIdName" := name])
        else Done(base);
      var withSpecific :-
        if IsAtLeastApi29(p.sdk) then
          var specificName :- t.simSpecificCarrierIdName;
          Done(withCarrier["simSpecificCarrierId" := Some(IntToString(t.simSpecificCarrierId))]
                          ["simSpecificCarrierIdName" := Some(NullableToString(specificName))]
                          ["isMultiSimSupported" := Some(IntToString(t.multiSimSupport))])
        else Done(withCarrier);
      Done(Some(withSpecific))
  }

  // ---------------------------------------------------------------------------
  // getAllBuildInfo

  /** The 22 entry names `getAllBuildInfo` always builds, in source order. */
  const BuildInfoBaseNames: seq<string> := [
    "androidId", "Build.ID", "Build.SERIAL", "Build.DISPLAY", "Build.PRODUCT",
    "Build.DEVICE", "Build.BOARD", "Build.MANUFACTURER", "Build.BRAND", "Build.MODEL",
    "Build.BOOTLOADER", "Build.HARDWARE", "Build.CPU_ABI", "Build.CPU_ABI2", "Build.TAGS",
    "Build.TIME", "Build.TYPE", "Build.FINGERPRINT", "Build.USER", "Build.HOST",
    "Build.RADIO", "Build.radioVersion"]

  /** The three ABI entry names added from Lollipop on. */
  const SupportedAbiNames: seq<string> :=
    ["Build.SUPPORTED_ABIS", "Build.SUPPORTED_32_BIT_ABIS", "Build.SUPPORTED_64_BIT_ABIS"]

  function BuildInfoNames(sdk: int): seq<string> {
    BuildInfoBaseNames + (if IsAtLeastApi21(sdk) then SupportedAbiNames else [])
  }

  /** The values of the 22 base entries, given the resolved `androidId`. */
  function BaseBuildValues(p: Platform, androidId: string): (vs: seq<Option<string>>)
    ensures |vs| == |BuildInfoBaseNames|
  {
    var b := p.build;
    [Some(androidId), Some(b.id), Some(b.serial), Some(b.display), Some(b.product),
     Some(b.device), Some(b.board), Some(b.manufacturer), Some(b.brand), Some(b.model),
     Some(b.bootloader), Some(b.hardware), Some(b.cpuAbi), Some(b.cpuAbi2), Some(b.tags),
     Some(IntToString(b.time)), Some(b.buildType), Some(b.fingerprint), Some(b.user), Some(b.host),
     Some(b.radio), p.radioVersion]
  }

  /** The ABI lists, each joined with ", ". */
  function SupportedAbiValues(b: BuildAttributes): (vs: seq<Option<string>>)
    ensures |vs| == |SupportedAbiNames|
  {
    [Some(Join(b.supportedAbis, ", ")), Some(Join(b.supported32BitAbis, ", ")),
     Some(Join(b.supported64BitAbis, ", "))]
  }

  function BuildInfoValues(p: Platform, androidId: string): (vs: seq<Option<string>>)
    ensures |vs| == |BuildInfoNames(p.sdk)|
  {
    BaseBuildValues(p, androidId) + (if IsAtLeastApi21(p.sdk) then SupportedAbiValues(p.build) else [])
  }

  /** Each name, preceded by `prefix`, paired with its value. */
  function Prefixed(prefix: string, names: seq<string>, values: seq<Option<string>>): (r: seq<(string, Option<string>)>)
    requires |names| == |values|
    ensures |r| == |names|
    ensures forall i :: 0 <= i < |r| ==> r[i] == (prefix + names[i], values[i])
  {
    if |names| == 0 then []
    else [(prefix + names[0], values[0])] + Prefixed(prefix, names[1..], values[1..])
  }

  /** An entry survives the filter when its value is neither null nor blank. */
  predicate Retained(v: Option<string>) {
    v.Some? && !IsBlank(v.value)
  }

  /** The entries that survive the filter, with their values unwrapped. */
  function WithoutBlank(m: map<string, Option<string>>): (r: map<string, string>)
    ensures forall k :: k in r <==> k in m && Retained(m[k])
    ensures forall k :: k in r ==> m[k] == Some(r[k])
  {
    map k | k in m && Retained(m[k]) :: m[k].value
  }

  /** What `getAllBuildInfo(prefix)` returns: an exception while building the
      map (here: from `androidId`) yields the empty map. */
  function AllBuildInfo(p: Platform, prefix: string): map<string, string> {
    match AndroidId(p)
    case Raised => map[]
    case Done(androidId) =>
      ToImmutableMap(WithoutBlank(FromPairs(Prefixed(prefix, BuildInfoNames(p.sdk), BuildInfoValues(p, androidId)))))
  }

  lemma PrefixedAppend(prefix: string, a: seq<string>, b: seq<string>, va: seq<Option<string>>, vb: seq<Option<string>>)
    requires |a| == |va| && |b| == |vb|
    ensures Prefixed(prefix, a + b, va + vb) == Prefixed(prefix, a, va) + Prefixed(prefix, b, vb)
  {
  }

  lemma PrefixedThree(prefix: string, names: seq<string>, values: seq<Option<string>>)
    requires |names| == 3 && |values| == 3
    ensures Prefixed(prefix, names, values) ==
              [(prefix + names[0], values[0]), (prefix + names[1], values[1]), (prefix + names[2], values[2])]
  {
    assert Prefixed(prefix, names[2..], values[2..]) == [(prefix + names[2], values[2])];
  }

  /** Building from all pairs at once is the same as building from the base
      pairs and then putting the three ABI entries. */
  lemma BuildInfoPairsInSteps(p: Platform, prefix: string, androidId: string)
    ensures var base := FromPairs(Prefixed(prefix, BuildInfoBaseNames, BaseBuildValues(p, androidId)));
            var abis := SupportedAbiValues(p.build);
            FromPairs(Prefixed(prefix, BuildInfoNames(p.sdk), BuildInfoValues(p, androidId))) ==
              if IsAtLeastApi21(p.sdk) then
                base[prefix + SupportedAbiNames[0] := abis[0]]
                    [prefix + SupportedAbiNames[1] := abis[1]]
                    [prefix + SupportedAbiNames[2] := abis[2]]
              else base
  {
    var basePairs := Prefixed(prefix, BuildInfoBaseNames, BaseBuildValues(p, androidId));
    if IsAtLeastApi21(p.sdk) {
      var abis := SupportedAbiValues(p.build);
      PrefixedAppend(prefix, BuildInfoBaseNames, SupportedAbiNames, BaseBuildValues(p, androidId), abis);
      PrefixedThree(prefix, SupportedAbiNames, abis);
      FromPairsSnocThree(basePairs, (prefix + SupportedAbiNames[0], abis[0]),
                         (prefix + SupportedAbiNames[1], abis[1]), (prefix + SupportedAbiNames[2], abis[2]));
    } else {
      assert BuildInfoNames(p.sdk) == BuildInfoBaseNames;
      assert BuildInfoValues(p, androidId) == BaseBuildValues(p, androidId);
    }
  }

  /** The filter loop of `getAllBuildInfo`: visits each key of the map once
      and removes the entry when its value is null or blank. */
  method RemoveBlankEntries(m: map<string, Option<string>>) returns (kept: map<string, string>)
    ensures kept == WithoutBlank(m)
  {
    var entries := m;
    var keys := m.Keys;
    while keys != {}
      invariant keys <= entries.Keys <= m.Keys
      invariant forall k :: k in entries ==> entries[k] == m[k]
      invariant forall k :: k in m && k !in keys ==> (k in entries <==> Retained(m[k]))
      decreases |keys|
    {
      var k :| k in keys;
      if entries[k].None? || IsBlank(entries[k].value) {
        entries := entries - {k};
      }
      keys := keys - {k};
    }
    kept := map k | k in entries :: entries[k].value;
  }

  /** `getAllBuildInfo(prefix)`: fills an `ArrayMap`, adds the ABI entries
      from Lollipop on, removes every entry whose value is null or blank, and
      returns an immutable copy; any exception gives the empty map. */
  method GetAllBuildInfo(p: Platform, prefix: string) returns (info: map<string, string>)
    ensures info == AllBuildInfo(p, prefix)
  {
    var androidId := AndroidId(p);
    if androidId.Raised? {
      return map[];
    }
    var m := ArrayMapOf(Prefixed(prefix, BuildInfoBaseNames, BaseBuildValues(p, androidId.value)));
    if IsAtLeastApi21(p.sdk) {
      var abis := SupportedAbiValues(p.build);
      m := m[prefix + SupportedAbiNames[0] := abis[0]];
      m := m[prefix + SupportedAbiNames[1] := abis[1]];
      m := m[prefix + SupportedAbiNames[2] := abis[2]];
    }
    BuildInfoPairsInSteps(p, prefix, androidId.value);
    var kept := RemoveBlankEntries(m);
    info := ToImmutableMap(kept);
  }

  lemma PrefixCancels(prefix: string, a: string, b: string)
    requires prefix + a == prefix + b
    ensures a == b
  {
    assert a == (prefix + a)[|prefix|..];
    assert b == (prefix + b)[|prefix|..];
  }

  lemma BuildInfoNamesDistinct(sdk: int)
    ensures forall i, j :: 0 <= i < j < |BuildInfoNames(sdk)| ==> BuildInfoNames(sdk)[i] != BuildInfoNames(sdk)[j]
  {
  }

  /** Every key of the snapshot is the prefix followed by one of the 22 base
      names, or, from Lollipop on, one of the three ABI names; no value is
      blank. */
  lemma AllBuildInfoShape(p: Platform, prefix: string)
    ensures forall k :: k in AllBuildInfo(p, prefix) ==>
              prefix <= k && k[|prefix|..] in BuildInfoNames(p.sdk)
    ensures forall k :: k in AllBuildInfo(p, prefix) ==> !IsBlank(AllBuildInfo(p, prefix)[k])
    ensures AndroidId(p).Raised? ==> AllBuildInfo(p, prefix) == map[]
  {
    if AndroidId(p).Done? {
      var names := BuildInfoNames(p.sdk);
      var pairs := Prefixed(prefix, names, BuildInfoValues(p, AndroidId(p).value));
      FromPairsKeys(pairs);
      forall k | k in AllBuildInfo(p, prefix)
        ensures prefix <= k && k[|prefix|..] in names
      {
        assert k in KeysOf(pairs);
        var i :| 0 <= i < |pairs| && pairs[i].0 == k;
        assert k == prefix + names[i];
        assert k[|prefix|..] == names[i];
      }
    }
  }

  /** Each named entry is present exactly when its value is neither null nor
      blank, and then holds that value. */
  lemma AllBuildInfoEntry(p: Platform, prefix: string, i: nat)
    requires AndroidId(p).Done?
    requires i < |BuildInfoNames(p.sdk)|
    ensures var v := BuildInfoValues(p, AndroidId(p).value)[i];
            var info := AllBuildInfo(p, prefix);
            && (prefix + BuildInfoNames(p.sdk)[i] in info <==> Retained(v))
            && (Retained(v) ==> info[prefix + BuildInfoNames(p.sdk)[i]] == v.value)
  {
    var names := BuildInfoNames(p.sdk);
    var pairs := Prefixed(prefix, names, BuildInfoValues(p, AndroidId(p).value));
    BuildInfoNamesDistinct(p.sdk);
    forall j | i < j < |pairs| ensures pairs[j].0 != pairs[i].0 {
      if pairs[j].0 == pairs[i].0 {
        PrefixCancels(prefix, names[j], names[i]);
      }
    }
    FromPairsLastOccurrence(pairs, i);
  }

  // ---------------------------------------------------------------------------
  // Pseudo-identifier and its digest

  /** The nine build attributes of the pseudo-identifier, in order: ID, BOARD,
      BRAND, MANUFACTURER, MODEL, CPU_ABI, HARDWARE, HOST, TIME. */
  function PseudoIdParts(b: BuildAttributes): (parts: seq<string>)
    ensures |parts| == 9
  {
    [b.id, b.board, b.brand, b.manufacturer, b.model, b.cpuAbi, b.hardware, b.host, IntToString(b.time)]
  }

  lemma IntToStringHasNoBar(i: int)
    ensures '|' !in IntToString(i)
  {
    var digits := NatToRadix(if i < 0 then -i else i, 10);
    NatToRadixDigits(if i < 0 then -i else i, 10);
    assert '|' !in digits;
    if i < 0 {
      assert IntToString(i) == "-" + digits;
    }
  }

  /** None of the eight string attributes of the pseudo-identifier contains
      the separator "|". */
  predicate NoBarAttributes(b: BuildAttributes) {
    && '|' !in b.id && '|' !in b.board && '|' !in b.brand && '|' !in b.manufacturer
    && '|' !in b.model && '|' !in b.cpuAbi && '|' !in b.hardware && '|' !in b.host
  }

  /** `pseudoId`: the nine attributes joined with "|". When no attribute
      contains "|", splitting the result at "|" gives back the nine
      attributes, so nothing is lost in the join. */
  function PseudoId(b: BuildAttributes): (id: string)
    ensures NoBarAttributes(b) ==> Split(id, '|') == PseudoIdParts(b)
  {
    var parts := PseudoIdParts(b);
    assert NoBarAttributes(b) ==> Split(Join(parts, "|"), '|') == parts by {
      if NoBarAttributes(b) {
        IntToStringHasNoBar(b.time);
        SplitJoin(parts, '|');
      }
    }
    Join(parts, "|")
  }

  /** Two builds without "|" in their attributes share a pseudo-identifier
      only if they agree on all nine attributes. */
  lemma PseudoIdDeterminesParts(b1: BuildAttributes, b2: BuildAttributes)
    requires NoBarAttributes(b1) && NoBarAttributes(b2)
    requires PseudoId(b1) == PseudoId(b2)
    ensures PseudoIdParts(b1) == PseudoIdParts(b2)
  {
  }

  /** The digest `getDeviceUniqueId` renders: MD5 (supplied as `md5`) of
      the first `pseudoId.length` bytes of the UTF-8 encoding. */
  function PseudoIdDigest(b: BuildAttributes, md5: seq<Int8> -> seq<Int8>): seq<Int8> {
    md5(DigestInput(PseudoId(b)))
  }

  /** What `getDeviceUniqueId()` returns: "" without the any-of phone-state
      permission, else the lower-case hex rendering of the digest. */
  function DeviceUniqueId(p: Platform, md5: seq<Int8> -> seq<Int8>): (id: string)
    ensures !CanReadPhoneState(p) ==> id == ""
    ensures CanReadPhoneState(p) ==>
              && |id| == 2 * |PseudoIdDigest(p.build, md5)|
              && HexDecode(id) == UnsignedBytes(PseudoIdDigest(p.build, md5))
              && IsLowerHex(id)
  {
    if !CanReadPhoneState(p) then ""
    else
      HexRoundTrip(PseudoIdDigest(p.build, md5));
      HexOfIsLowerHex(PseudoIdDigest(p.build, md5));
      HexOf(PseudoIdDigest(p.build, md5))
  }

  lemma DeviceUniqueIdIsHexOfDigest(p: Platform, md5: seq<Int8> -> seq<Int8>)
    requires CanReadPhoneState(p)
    ensures DeviceUniqueId(p, md5) == HexOf(md5(DigestInput(PseudoId(p.build))))
  {
  }

  /** `getDeviceUniqueId()`: appends two hex digits per digest byte. */
  method GetDeviceUniqueId(p: Platform, md5: seq<Int8> -> seq<Int8>) returns (identifier: string)
    ensures identifier == DeviceUniqueId(p, md5)
  {
    identifier := "";
    var allowed := HasPermissionSome(p.granted, ReadPhonePermissions);
    if !allowed {
      return;
    }
    var longId := PseudoId(p.build);
    var md5Bytes := md5(DigestInput(longId));
    for i := 0 to |md5Bytes|
      invariant identifier == HexOf(md5Bytes[..i])
    {
      var b := Unsigned(md5Bytes[i]);
      if b <= 0xF {
        identifier := identifier + "0";
      }
      identifier := identifier + ToHexString(b);
      HexOfStep(md5Bytes, i);
    }
    assert md5Bytes[..|md5Bytes|] == md5Bytes;
    DeviceUniqueIdIsHexOfDigest(p, md5);
  }

  /** With a 16-byte MD5 digest the identifier is 32 lower-case hex digits,
      and it is a function of the digest: equal digests, equal identifiers;
      different digests, different identifiers. */
  lemma DeviceUniqueIdShape(p: Platform, md5: seq<Int8> -> seq<Int8>)
    requires CanReadPhoneState(p)
    requires |PseudoIdDigest(p.build, md5)| == 16
    ensures |DeviceUniqueId(p, md5)| == 32
    ensures IsLowerHex(DeviceUniqueId(p, md5))
  {
    HexOfIsLowerHex(PseudoIdDigest(p.build, md5));
  }

  lemma DeviceUniqueIdSeparatesDigests(p1: Platform, p2: Platform, md5: seq<Int8> -> seq<Int8>)
    requires CanReadPhoneState(p1) && CanReadPhoneState(p2)
    ensures DeviceUniqueId(p1, md5) == DeviceUniqueId(p2, md5) <==>
              PseudoIdDigest(p1.build, md5) == PseudoIdDigest(p2.build, md5)
  {
    if DeviceUniqueId(p1, md5) == DeviceUniqueId(p2, md5) {
      HexOfInjective(PseudoIdDigest(p1.build, md5), PseudoIdDigest(p2.build, md5));
    }
  }

  /** `getUniquePseudoID()`: "" without the any-of phone-state permission,
      else the name-based UUID (supplied as `nameUuid`, whose `toString()`
      is always in the canonical 8-4-4-4-12 form) of the whole UTF-8
      encoding of the pseudo-identifier. */
  function UniquePseudoId(p: Platform, nameUuid: seq<Int8> -> string): (id: string)
    requires forall bytes :: IsUuidString(nameUuid(bytes))
    ensures id == "" <==> !CanReadPhoneState(p)
    ensures CanReadPhoneState(p) ==> IsUuidString(id)
    ensures CanReadPhoneState(p) ==> id == nameUuid(Utf8(PseudoId(p.build)))
  {
    if !CanReadPhoneState(p) then ""
    else
      var uuid := nameUuid(Utf8(PseudoId(p.build)));
      assert IsUuidString(uuid);
      uuid
  }

  /** The digest sees the same bytes as the UUID exactly when the
      pseudo-identifier is ASCII; otherwise only a proper prefix of them. */
  lemma DigestInputCoversEncodingIffAscii(b: BuildAttributes)
    ensures DigestInput(PseudoId(b)) <= Utf8(PseudoId(b))
    ensures DigestInput(PseudoId(b)) == Utf8(PseudoId(b)) <==> IsAscii(PseudoId(b))
  {
  }

  // ---------------------------------------------------------------------------
  // End-to-end scenarios

  /** Without either phone-state permission, the serial number, the device
      id and the pseudo UUID are all "". */
  lemma NoPhonePermissionScenario(p: Platform, md5: seq<Int8> -> seq<Int8>, nameUuid: seq<Int8> -> string)
    requires forall bytes :: IsUuidString(nameUuid(bytes))
    requires ReadPhoneState !in p.granted && ReadPrivilegedPhoneState !in p.granted
    ensures SerialNumber(p) == Done("")
    ensures DeviceUniqueId(p, md5) == ""
    ensures UniquePseudoId(p, nameUuid) == ""
  {
    CanReadPhoneStateIff(p);
  }

  /** On Android O with the permission, a valid `getSerial()` is the serial
      number. */
  lemma BuildSerialScenario(p: Platform)
    requires p.sdk == 26 && ReadPhoneState in p.granted
    requires p.serialAccessor == Done(Some("SN123"))
    ensures SerialNumber(p) == Done("SN123")
  {
    CanReadPhoneStateIff(p);
  }

  /** A build serial equal to "unknown" falls back to the system properties,
      where an empty `ril.serialnumber` gives way to `ro.serialno`. */
  lemma SystemPropertySerialScenario(p: Platform)
    requires p.sdk >= 26 && ReadPhoneState in p.granted
    requires p.serialAccessor == Done(Some(Unknown))
    requires p.systemProperty("ril.serialnumber") == Done(Some(""))
    requires p.systemProperty("ro.serialno") == Done(Some("ABC987"))
    ensures SerialNumber(p) == Done("ABC987")
  {
    CanReadPhoneStateIff(p);
    assert RejectedUpTo(p.systemProperty, SerialNumberKeys, 1);
    FirstValidDecidedAt(p.systemProperty, SerialNumberKeys, 1);
  }

  /** Kotlin prints the build time 123 as "123". */
  lemma BuildTimeScenario()
    ensures IntToString(123) == "123"
  {
    assert NatToRadix(1, 10) == [DigitChar(1)];
    assert NatToRadix(12, 10) == NatToRadix(1, 10) + [DigitChar(2)];
    assert NatToRadix(123, 10) == NatToRadix(12, 10) + [DigitChar(3)];
    assert DigitChar(1) == '1' && DigitChar(2) == '2' && DigitChar(3) == '3';
  }

  /** The pseudo-identifier spelled out: the nine attributes with "|"
      between each pair of neighbours. */
  lemma PseudoIdSpelledOut(b: BuildAttributes)
    ensures PseudoId(b) ==
              b.id + ("|" + (b.board + ("|" + (b.brand + ("|" + (b.manufacturer + ("|" + (b.model + ("|" + (b.cpuAbi + ("|" + (b.hardware + ("|" + (b.host + ("|" + IntToString(b.time))))))))))))))))
  {
    JoinNine(PseudoIdParts(b), "|");
  }

  /** The spelling of the concrete pseudo-identifier below, one attribute at a time. */
  lemma ScenarioSpelling()
    ensures "A" + ("|" + ("B" + ("|" + ("C" + ("|" + ("D" + ("|" + ("E" + ("|" + ("F" + ("|" + ("G" + ("|" + ("H" + ("|" + "123")))))))))))))))
            == "A|B|C|D|E|F|G|H|123"
  {
  }

  /** The pseudo-identifier of a concrete build. */
  lemma PseudoIdScenario(b: BuildAttributes)
    requires b.id == "A" && b.board == "B" && b.brand == "C" && b.manufacturer == "D"
    requires b.model == "E" && b.cpuAbi == "F" && b.hardware == "G" && b.host == "H"
    requires b.time == 123
    ensures PseudoId(b) == "A|B|C|D|E|F|G|H|123"
  {
    BuildTimeScenario();
    PseudoIdSpelledOut(b);
    ScenarioSpelling();
  }
}
