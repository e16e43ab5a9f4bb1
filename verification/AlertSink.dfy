/** The append-only log of published alerts (internal/adapters/memory/alert_sink.go). */
module AlertSink {
  import opened Domain

  class Sink {
    var alerts: seq<Alert>

    constructor ()
      ensures alerts == []
    {
      alerts := [];
    }

    method Publish(alert: Alert)
      modifies this
      ensures alerts == old(alerts) + [alert]
    {
      alerts := alerts + [alert];
    }

    /** A copy: publishing later does not change it. */
    method Alerts() returns (out: seq<Alert>)
      ensures out == alerts
    {
      out := alerts;
    }
  }
}
