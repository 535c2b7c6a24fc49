/** The sampling step of the particulate page task: calibrate and publish the
    temperature, take a snapshot of the reading store, derive the air quality
    index from the PM2.5 (atmospheric) concentration, and pick the label, the
    panel colours and the LED colour from it. */
module PmTask {
  import opened Types
  import PmsFrame
  import Aqi
  import opened SharedState

  /** Offset subtracted from the IMU temperature. */
  const TemperatureOffset: real := 27.78

  /** What the step puts on the particulate page. */
  datatype Panel = Panel(
    temperatureC: real,
    aqi: u16, caption: string, aqiColor: Aqi.Rgb, background: Aqi.Rgb,
    pm1_0: u16, pm2_5: u16, pm10: u16)

  datatype Sampled = Sampled(shared: Shared, panel: Panel)

  /** One pass of the gated block of pm_task, with the IMU temperature as
      input. The shared temperature is replaced by the calibrated one; the
      humidity, pressure, reading store and counters are left alone; the index
      is the truncated AQI of the stored PM2.5 (AE) value; label and colours
      come from the classifiers, the colours unpacked from their 24-bit form. */
  function SampleStep(s: Shared, imuTemperatureC: real): (r: Sampled)
    ensures r.shared == s.(env := s.env.(temperatureC := imuTemperatureC - TemperatureOffset),
                           led := r.shared.led)
    ensures r.panel.temperatureC == imuTemperatureC - TemperatureOffset
    ensures r.panel.aqi == Aqi.PmAqi(s.pms.pm2_5Ae)
    ensures var c := Aqi.EpaCategory(s.pms.pm2_5Ae);
            && r.panel.caption == Aqi.CategoryName(c)
            && r.panel.aqiColor == Aqi.CategoryColor(c)
            && r.panel.background == Aqi.CategoryAltColor(c)
            && r.shared.led == Aqi.CategoryColor(c)
    ensures r.panel.pm1_0 == s.pms.pm1_0Ae && r.panel.pm2_5 == s.pms.pm2_5Ae && r.panel.pm10 == s.pms.pm10Ae
  {
    var temp := imuTemperatureC - TemperatureOffset;
    var snapshot := s.pms;
    var aqi := Aqi.PmAqi(snapshot.pm2_5Ae);
    var aq := aqi as real;
    var led := Aqi.UpdateAqi(aq, s.led);
    var caption := Aqi.LabelFor(aq);
    var color := Aqi.Unpack(Aqi.MapAqiToColor(aq));
    var alt := Aqi.Unpack(Aqi.MapAqiToAltColor(aq));
    Aqi.PmAqiCategory(snapshot.pm2_5Ae);
    Aqi.UnpackPack(Aqi.CategoryColor(Aqi.CategoryOf(aq)));
    Aqi.UnpackPack(Aqi.CategoryAltColor(Aqi.CategoryOf(aq)));
    Sampled(s.(env := s.env.(temperatureC := temp), led := led),
            Panel(temp, aqi, caption, color, alt, snapshot.pm1_0Ae, snapshot.pm2_5Ae, snapshot.pm10Ae))
  }

  /** Three points of the index scale: clean, moderately polluted and
      hazardous air. 40 µg/m³ lies in the 35.5-55.4 band, so it is labelled
      for sensitive groups, not moderate. */
  lemma SampleScenarios(s: Shared, t: real)
    ensures s.pms.pm2_5Ae == 10 ==>
              SampleStep(s, t).panel.aqi == 41 && SampleStep(s, t).panel.caption == "Good"
    ensures s.pms.pm2_5Ae == 40 ==>
              SampleStep(s, t).panel.aqi == 112 && SampleStep(s, t).panel.caption == "Unhealthy for\nSensitive Groups"
    ensures s.pms.pm2_5Ae == 400 ==>
              SampleStep(s, t).panel.aqi == 433 && SampleStep(s, t).panel.caption == "Hazardous"
  {
  }
}
