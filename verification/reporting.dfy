/** One pass of the cloud reporting loop: unless the client is reconnecting
    or a shadow update is still pending, take the environment reading, the
    atmospheric particulate values and the event counters, and reset the
    counters for the next interval. The report is what the pass then hands to
    the shadow document; building and sending that document happens after
    the counters are reset and is not modelled, so whether the report is
    published is outside this model. */
module Reporting {
  import opened Types
  import Events
  import PmTask
  import opened SharedState

  /** The values one pass collects for the device shadow. */
  datatype Report = Report(
    temperature: real, humidity: real, pressure: real,
    pm1_0: u16, pm2_5: u16, pm10: u16,
    coughs: u16, sneezes: u16)

  datatype Reported = Reported(shared: Shared, report: Option<Report>)

  /** One pass of the loop. The loop also reads the IMU temperature and
      converts it to Fahrenheit, but overwrites the converted value with the
      shared environment reading before using it, so the IMU reading is not
      an input here. */
  function ReportStep(s: Shared, reconnecting: bool, updateInProgress: bool): (r: Reported)
    ensures reconnecting || updateInProgress ==> r == Reported(s, None)
    ensures !(reconnecting || updateInProgress) ==>
              && r.report.Some?
              && r.report.value.temperature == s.env.temperatureC
              && r.report.value.humidity == s.env.humidity
              && r.report.value.pressure == s.env.pressure
              && r.report.value.pm1_0 == s.pms.pm1_0Ae
              && r.report.value.pm2_5 == s.pms.pm2_5Ae
              && r.report.value.pm10 == s.pms.pm10Ae
              && r.report.value.coughs == s.ei.coughs
              && r.report.value.sneezes == s.ei.sneezes
              && r.shared == s.(ei := Events.InitialEiData)
  {
    if reconnecting || updateInProgress then Reported(s, None)
    else
      var temperature := s.env.temperatureC;
      var drained := Events.Drain(s.ei);
      Reported(s.(ei := drained.after),
               Some(Report(temperature, s.env.humidity, s.env.pressure,
                           s.pms.pm1_0Ae, s.pms.pm2_5Ae, s.pms.pm10Ae,
                           drained.reported.coughs, drained.reported.sneezes)))
  }

  /** A skipped pass neither drains nor resets, so the events it would have
      drained are drained by the next pass that goes through. */
  lemma SkippedPassLosesNothing(s: Shared)
    ensures var skipped := ReportStep(s, true, false).shared;
            ReportStep(skipped, false, false).report.value.coughs == s.ei.coughs
            && ReportStep(skipped, false, false).report.value.sneezes == s.ei.sneezes
  {
  }

  /** After a sampling pass with IMU temperature t, the next report carries
      the calibrated temperature t - 27.78 and the stored PM2.5 (AE) value. */
  lemma SampleThenReport(s: Shared, t: real)
    ensures var sampled := PmTask.SampleStep(s, t).shared;
            var r := ReportStep(sampled, false, false).report.value;
            r.temperature == t - PmTask.TemperatureOffset && r.pm2_5 == s.pms.pm2_5Ae
  {
  }
}
