/** The `/health` endpoint. */
module Health {
  import opened Wrappers
  import opened Responses
  import DownloadLink
  import Extraction

  /** The health answer for a server status; the `uptime` timestamp is not modelled. */
  function HealthCheck(serverStatus: string): (r: Reply)
    ensures r.code == OK <==> serverStatus == ACTIVE
    ensures r.code == SERVICE_UNAVAILABLE <==> serverStatus != ACTIVE
    ensures r.body.Status() == (if serverStatus == ACTIVE then "ok" else "error")
  {
    if serverStatus == ACTIVE then
      Reply(Healthy(HEALTHY_MESSAGE), OK)
    else
      Reply(Error(MAINTENANCE_MESSAGE), SERVICE_UNAVAILABLE)
  }

  /** The health endpoint reports 503 exactly when the download endpoint refuses every request with 503. */
  lemma HealthMatchesGate(serverStatus: string, formUrl: Option<string>, extract: string -> Extraction.Outcome)
    ensures HealthCheck(serverStatus).code == SERVICE_UNAVAILABLE
      <==> DownloadLink.Answer(serverStatus, formUrl, extract).code == SERVICE_UNAVAILABLE
  {
  }
}
