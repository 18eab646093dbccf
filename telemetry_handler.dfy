/**
 * The base station's telemetry handler: every telemetry entry is queued
 * unchanged for batched upload to the telemetry service.  The network's
 * answer is a parameter.
 */
module TelemetryHandling {
  import opened Wrappers
  import opened JsText
  import opened BatchSend

  /** The options object; a missing key is None. */
  datatype Options = Options(apiEndpoint: Option<string>, retentionDays: Option<real>, batchSize: Option<int>)

  const DefaultEndpoint := "http://localhost:3000/api/telemetry"

  class TelemetryHandler<T> {
    var apiEndpoint: string
    var retentionDays: real
    var batchSize: int
    var telemetryQueue: seq<T>
    var isSending: bool

    /** The defaults: the local endpoint, 7 days, batches of 100. */
    constructor (options: Options)
      ensures apiEndpoint == StringOr(options.apiEndpoint, DefaultEndpoint)
      ensures retentionDays == RealOr(options.retentionDays, 7.0)
      ensures batchSize == NumberOr(options.batchSize, 100)
      ensures telemetryQueue == [] && !isSending
    {
      apiEndpoint := StringOr(options.apiEndpoint, DefaultEndpoint);
      retentionDays := RealOr(options.retentionDays, 7.0);
      batchSize := NumberOr(options.batchSize, 100);
      telemetryQueue := [];
      isSending := false;
    }

    /** handleNewTelemetry: queue the entry, and send once batchSize are queued. */
    method HandleNewTelemetry(telemetryEntry: T, outcome: Outcome)
      modifies this
      ensures var queued := old(telemetryQueue) + [telemetryEntry];
        telemetryQueue == if |queued| >= batchSize then AfterSend(queued, batchSize, old(isSending), outcome) else queued
      ensures isSending == old(isSending)
      ensures batchSize == old(batchSize) && retentionDays == old(retentionDays) && apiEndpoint == old(apiEndpoint)
    {
      telemetryQueue := telemetryQueue + [telemetryEntry];
      if |telemetryQueue| >= batchSize {
        var _ := SendTelemetry(outcome);
      }
    }

    /**
     * sendTelemetry: unless the guard skips, take a batch off the front and
     * POST it to apiEndpoint; on failure put it back at the front; isSending
     * is cleared in the finally.  request is what is handed to fetch.
     */
    method SendTelemetry(outcome: Outcome) returns (request: Option<Upload<T>>)
      modifies this
      ensures telemetryQueue == AfterSend(old(telemetryQueue), batchSize, old(isSending), outcome)
      ensures request == if Skips(old(telemetryQueue), old(isSending)) then None
        else Some(Upload(apiEndpoint, Batch(old(telemetryQueue), batchSize), retentionDays))
      ensures !Skips(old(telemetryQueue), old(isSending)) ==> !isSending
      ensures Skips(old(telemetryQueue), old(isSending)) ==> isSending == old(isSending)
      ensures batchSize == old(batchSize) && retentionDays == old(retentionDays) && apiEndpoint == old(apiEndpoint)
    {
      if |telemetryQueue| == 0 || isSending {
        return None;
      }
      isSending := true;
      var telemetryToSend := telemetryQueue[..SpliceCount(batchSize, |telemetryQueue|)];
      telemetryQueue := telemetryQueue[SpliceCount(batchSize, |telemetryQueue|)..];
      request := Some(Upload(apiEndpoint, telemetryToSend, retentionDays));
      match outcome {
        case Delivered =>
        case Rejected =>
          telemetryQueue := telemetryToSend + telemetryQueue;
          // the throw lands in the catch below
          telemetryQueue := telemetryToSend + telemetryQueue;
        case Unreachable =>
          telemetryQueue := telemetryToSend + telemetryQueue;
      }
      isSending := false;
    }
  }
}
