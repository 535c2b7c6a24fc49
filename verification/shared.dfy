/** The state the firmware's tasks share under their locks: the particulate
    reading store, the environment reading, the cough and sneeze counters,
    and the colour the LED strip shows. */
module SharedState {
  import opened Types
  import PmsFrame
  import Events
  import Aqi

  /** BME280_DATA: temperature in °C, relative humidity, pressure. */
  datatype EnvReading = EnvReading(temperatureC: real, humidity: real, pressure: real)

  datatype Shared = Shared(pms: PmsFrame.Reading, env: EnvReading, ei: Events.EiData, led: Aqi.Rgb)

  /** The LED starts Amazon orange, 0xFF9900. */
  const InitialLed: Aqi.Rgb := Aqi.Rgb(255, 153, 0)

  /** Everything zeroed at start-up. */
  const InitialShared: Shared :=
    Shared(PmsFrame.EmptyReading, EnvReading(0.0, 0.0, 0.0), Events.InitialEiData, InitialLed)

  /** One read of the sensor task: a non-empty read is handed to the decoder,
      which stores the reading only when the read is exactly one well-framed
      frame; nothing but the reading store can change. */
  function ReceiveBytes(s: Shared, data: seq<u8>): (r: Shared)
    ensures r.env == s.env && r.ei == s.ei && r.led == s.led
    ensures !PmsFrame.WellFramed(data) ==> r == s
    ensures PmsFrame.WellFramed(data) ==> r.pms == PmsFrame.ReadingOf(data)
  {
    if |data| > 0 then s.(pms := PmsFrame.Ingest(s.pms, data)) else s
  }
}
