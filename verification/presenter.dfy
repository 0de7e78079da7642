/**
 * How loop() presents a decoded status: text tables for the run mode, the
 * battery-saver level and the temperature unit, yes/no and on/off flags, and
 * the battery voltage as a whole number of tenths of a volt.
 */
module Presenter {
  import opened Bytes
  import opened FrameCodec

  /** The run-mode text: 0 is MAX, 1 is ECO, any other code is UNKNOWN. */
  function RunModeLabel(runMode: Byte): (text: string)
    ensures text == "MAX" <==> runMode == 0
    ensures text == "ECO" <==> runMode == 1
    ensures text == "UNKNOWN" <==> runMode >= 2
  {
    if runMode == 0 then "MAX"
    else if runMode == 1 then "ECO"
    else "UNKNOWN"
  }

  /**
   * The battery-saver text: 0, 1, 2 are Low, Mid, High and anything else is
   * Unknown. The firmware applies three independent tests; since at most one
   * can hold, the last one that matches is the only one.
   */
  function BatSaverLabel(batSaver: Byte): (text: string)
    ensures text == "Low" <==> batSaver == 0
    ensures text == "Mid" <==> batSaver == 1
    ensures text == "High" <==> batSaver == 2
    ensures text == "Unknown" <==> batSaver >= 3
  {
    var text := "Unknown";
    var text := if batSaver == 0 then "Low" else text;
    var text := if batSaver == 1 then "Mid" else text;
    if batSaver == 2 then "High" else text
  }

  /** The temperature suffix: only unit 0 is Celsius; every other code prints as Fahrenheit. */
  function UnitLabel(unit: Byte): (text: string)
    ensures text == "°C" <==> unit == 0
    ensures text == "°F" <==> unit != 0
  {
    if unit == 0 then "°C" else "°F"
  }

  /**
   * The battery voltage `batVolInt + batVolDec / 10` in tenths of a volt.
   * A tenths byte of 10 or more carries into the whole volts.
   */
  function VoltageTenths(batVolInt: Byte, batVolDec: Byte): (tenths: nat)
    ensures batVolDec < 10 ==> tenths / 10 == batVolInt && tenths % 10 == batVolDec
    ensures tenths / 10 == batVolInt + batVolDec / 10
    ensures tenths % 10 == batVolDec % 10
  {
    batVolInt * 10 + batVolDec
  }

  /** What loop() prints for a decoded status. */
  datatype StatusView = StatusView(
    locked: string,
    poweredOn: string,
    runMode: string,
    batSaver: string,
    leftTarget: int,
    leftCurrent: int,
    unit: string,
    batPercent: nat,
    voltageTenths: nat)

  function Present(st: FridgeStatus): (v: StatusView)
    ensures v.locked == "YES" <==> st.locked
    ensures v.poweredOn == "ON" <==> st.poweredOn
    ensures !st.locked ==> v.locked == "NO"
    ensures !st.poweredOn ==> v.poweredOn == "OFF"
    ensures v.runMode == RunModeLabel(st.runMode) && v.batSaver == BatSaverLabel(st.batSaver)
    ensures v.unit == UnitLabel(st.unit)
    ensures v.leftTarget == st.leftTarget && v.leftCurrent == st.leftCurrent
    ensures v.batPercent == st.batPercent
    ensures v.voltageTenths == VoltageTenths(st.batVolInt, st.batVolDec)
  {
    StatusView(
      if st.locked then "YES" else "NO",
      if st.poweredOn then "ON" else "OFF",
      RunModeLabel(st.runMode),
      BatSaverLabel(st.batSaver),
      st.leftTarget,
      st.leftCurrent,
      UnitLabel(st.unit),
      st.batPercent,
      VoltageTenths(st.batVolInt, st.batVolDec))
  }

  /** Known codes have distinct labels, so the text determines the code. */
  lemma LabelsDetermineKnownCodes(a: Byte, b: Byte)
    ensures a <= 1 && b <= 1 && RunModeLabel(a) == RunModeLabel(b) ==> a == b
    ensures a <= 2 && b <= 2 && BatSaverLabel(a) == BatSaverLabel(b) ==> a == b
  {
  }

  /** A battery of 12 volts and 8 tenths reads 12.8 V. */
  lemma VoltageExample()
    ensures VoltageTenths(12, 8) == 128
  {
  }
}
