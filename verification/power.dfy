/** The power page: the battery icon chosen from the battery voltage, the
    charge icon chosen from the battery current, and the values the
    brightness and vibration switches send to the hardware. */
module Power {
  import opened Types

  /** The battery glyphs, from full to empty. */
  datatype BatteryIcon = BatteryFull | Battery3 | Battery2 | Battery1 | BatteryEmpty

  /** The recoloured battery label: an RGB hex colour and a glyph. */
  datatype BatteryLabel = BatteryLabel(color: string, icon: BatteryIcon)

  const Green: string := "0ab300"
  const Orange: string := "ff9900"
  const Red: string := "ff0000"

  /** The voltage thresholds, tested with >= from the top down. */
  const FullVolts: real := 4.100
  const Level3Volts: real := 3.95
  const Level2Volts: real := 3.80
  const Level1Volts: real := 3.25

  /** The battery label of battery_task for a voltage reading. */
  function BatteryLabelFor(volts: real): (l: BatteryLabel)
    ensures volts >= FullVolts <==> l == BatteryLabel(Green, BatteryFull)
    ensures Level3Volts <= volts < FullVolts <==> l == BatteryLabel(Green, Battery3)
    ensures Level2Volts <= volts < Level3Volts <==> l == BatteryLabel(Orange, Battery2)
    ensures Level1Volts <= volts < Level2Volts <==> l == BatteryLabel(Red, Battery1)
    ensures volts < Level1Volts <==> l == BatteryLabel(Red, BatteryEmpty)
  {
    if volts >= FullVolts then BatteryLabel(Green, BatteryFull)
    else if volts >= Level3Volts then BatteryLabel(Green, Battery3)
    else if volts >= Level2Volts then BatteryLabel(Orange, Battery2)
    else if volts >= Level1Volts then BatteryLabel(Red, Battery1)
    else BatteryLabel(Red, BatteryEmpty)
  }

  /** How many bars a glyph shows. */
  function Bars(icon: BatteryIcon): nat
  {
    match icon
    case BatteryFull => 4
    case Battery3 => 3
    case Battery2 => 2
    case Battery1 => 1
    case BatteryEmpty => 0
  }

  /** The number of thresholds a voltage reaches, counted independently of
      the order in which the task tests them. */
  function ThresholdsReached(volts: real): nat
  {
    (if volts >= Level1Volts then 1 else 0) + (if volts >= Level2Volts then 1 else 0)
    + (if volts >= Level3Volts then 1 else 0) + (if volts >= FullVolts then 1 else 0)
  }

  /** The glyph shows as many bars as thresholds the voltage reaches. */
  lemma BarsCountThresholds(volts: real)
    ensures Bars(BatteryLabelFor(volts).icon) == ThresholdsReached(volts)
  {
  }

  /** A higher voltage never shows fewer bars. */
  lemma BarsMonotonic(v: real, w: real)
    requires v <= w
    ensures Bars(BatteryLabelFor(v).icon) <= Bars(BatteryLabelFor(w).icon)
  {
    BarsCountThresholds(v);
    BarsCountThresholds(w);
  }

  /** The charge label: the charge glyph in blue, or nothing. */
  datatype ChargeLabel = ChargeIcon | NoChargeText

  /** A non-negative battery current shows the charge glyph. */
  function ChargeLabelFor(current: real): (l: ChargeLabel)
    ensures l == ChargeIcon <==> current >= 0.0
  {
    if current >= 0.0 then ChargeIcon else NoChargeText
  }

  /** brightness_event_handler: the switch state 0 dims the screen to 40,
      any other state sets 80. */
  function Brightness(state: u8): (level: nat)
    ensures level == 40 || level == 80
    ensures level == 40 <==> state == 0
  {
    if state == 0 then 40 else 80
  }

  /** vibration_event_handler: the switch state 0 stops the motor, any other
      state sets strength 60. */
  function Vibration(state: u8): (strength: nat)
    ensures strength == 0 || strength == 60
    ensures strength == 0 <==> state == 0
  {
    if state == 0 then 0 else 60
  }

  /** Both switches read the same states as on: the screen is bright exactly
      when the motor runs, and each setting depends only on whether the switch
      is on. */
  lemma SwitchesAgree(s: u8, t: u8)
    ensures Brightness(s) == 80 <==> Vibration(s) == 60
    ensures (s == 0 <==> t == 0) ==> Brightness(s) == Brightness(t) && Vibration(s) == Vibration(t)
  {
  }
}
