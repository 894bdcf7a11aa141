/** Android API-level gates. Every gate compares the running SDK level
    (`Build.VERSION.SDK_INT`, here the parameter `sdk`) against a release
    constant of `Build.VERSION_CODES`. */
module BuildVersionExt {

  const Lollipop := 21
  const M := 23
  const N := 24
  const NMr1 := 25
  const O := 26
  const OMr1 := 27
  const P := 28
  const Q := 29
  const R := 30
  const S := 31

  /** `isAtLeastApi(versionCode)`: the running level is that release or a
      later one. */
  predicate IsAtLeastApi(sdk: int, versionCode: int)
    ensures IsAtLeastApi(sdk, versionCode) <==> versionCode <= sdk
  {
    sdk >= versionCode
  }

  predicate IsAtLeastApi21(sdk: int)
    ensures IsAtLeastApi21(sdk) <==> IsAtLeastApi(sdk, 21)
  {
    sdk >= Lollipop
  }

  predicate IsAtLeastApi23(sdk: int)
    ensures IsAtLeastApi23(sdk) <==> IsAtLeastApi(sdk, 23)
  {
    sdk >= M
  }

  predicate IsAtLeastApi24(sdk: int)
    ensures IsAtLeastApi24(sdk) <==> IsAtLeastApi(sdk, 24)
  {
    sdk >= N
  }

  predicate IsAtLeastApi26(sdk: int)
    ensures IsAtLeastApi26(sdk) <==> IsAtLeastApi(sdk, 26)
  {
    sdk >= O
  }

  predicate IsAtLeastApi27(sdk: int)
    ensures IsAtLeastApi27(sdk) <==> IsAtLeastApi(sdk, 27)
  {
    sdk >= OMr1
  }

  predicate IsAtLeastApi28(sdk: int)
    ensures IsAtLeastApi28(sdk) <==> IsAtLeastApi(sdk, 28)
  {
    sdk >= P
  }

  predicate IsAtLeastApi29(sdk: int)
    ensures IsAtLeastApi29(sdk) <==> IsAtLeastApi(sdk, 29)
  {
    sdk >= Q
  }

  predicate IsAtLeastApi30(sdk: int)
    ensures IsAtLeastApi30(sdk) <==> IsAtLeastApi(sdk, 30)
  {
    sdk >= R
  }

  predicate IsAtLeastApi31(sdk: int)
    ensures IsAtLeastApi31(sdk) <==> IsAtLeastApi(sdk, 31)
  {
    sdk >= S
  }

  /** The "at most N_MR1" check is the exact complement of "at least O":
      every SDK level takes exactly one of the two branches. */
  predicate IsAtEqualOrMinusApi25(sdk: int)
    ensures IsAtEqualOrMinusApi25(sdk) <==> !IsAtLeastApi26(sdk)
  {
    sdk <= NMr1
  }

  /** A gate for a later release implies every gate for an earlier one. */
  lemma GatesMonotone(sdk: int, lower: int, higher: int)
    requires lower <= higher
    ensures IsAtLeastApi(sdk, higher) ==> IsAtLeastApi(sdk, lower)
  {
  }

  lemma NamedGatesMonotone(sdk: int)
    ensures IsAtLeastApi31(sdk) ==> IsAtLeastApi30(sdk)
    ensures IsAtLeastApi30(sdk) ==> IsAtLeastApi29(sdk)
    ensures IsAtLeastApi29(sdk) ==> IsAtLeastApi28(sdk)
    ensures IsAtLeastApi28(sdk) ==> IsAtLeastApi27(sdk)
    ensures IsAtLeastApi27(sdk) ==> IsAtLeastApi26(sdk)
    ensures IsAtLeastApi26(sdk) ==> IsAtLeastApi24(sdk)
    ensures IsAtLeastApi24(sdk) ==> IsAtLeastApi23(sdk)
    ensures IsAtLeastApi23(sdk) ==> IsAtLeastApi21(sdk)
  {
  }
}
