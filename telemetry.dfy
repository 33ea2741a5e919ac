/** The fire-and-forget score reports that two of the games send to the
    chain. Only the payload is modelled: each report becomes an entry
    appended to an outbound log, and nothing ever flows back. */
module Telemetry {

  /** `TapEvent` is the bubble game's payload, which carries no event tag;
      `CoinEvent` is the dodger's `event: 'coin'` payload. */
  datatype EventKind = TapEvent | CoinEvent

  /** The JSON payload `{ gid, score, event? }` of one transaction. */
  datatype Report = Report(gameId: string, event: EventKind, score: int)

  /** One report per score, in order, all tagged with the same session. */
  function Tagged(gameId: string, event: EventKind, scores: seq<int>): (r: seq<Report>)
    ensures |r| == |scores|
    ensures forall k :: 0 <= k < |scores| ==> r[k] == Report(gameId, event, scores[k])
  {
    seq(|scores|, k requires 0 <= k < |scores| => Report(gameId, event, scores[k]))
  }

  /** The reports of two consecutive batches are the reports of the joined
      batch, so the log of several frames is the log of all their scores. */
  lemma TaggedAppend(gameId: string, event: EventKind, a: seq<int>, b: seq<int>)
    ensures Tagged(gameId, event, a + b) == Tagged(gameId, event, a) + Tagged(gameId, event, b)
  {
  }
}
