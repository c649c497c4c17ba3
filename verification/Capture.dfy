/** The record of one proxied request (internal/capture). */
module Capture {
  import opened Config

  datatype Exchange = Exchange(
    app: string, category: Category, action: Action, rerouted: bool, verb: string, scheme: string, host: string,
    path: string, query: string, status: int, bytes: nat, gap: bool, error: string)
  {
    function Redacted(): Exchange { this.(query := "") }
  }

  /** Redaction drops the query and nothing else. */
  lemma RedactedIff(e: Exchange, x: Exchange)
    ensures x == e.Redacted() <==>
      && x.query == "" && x.app == e.app && x.category == e.category && x.action == e.action
      && x.rerouted == e.rerouted && x.verb == e.verb && x.scheme == e.scheme && x.host == e.host
      && x.path == e.path && x.status == e.status && x.bytes == e.bytes && x.gap == e.gap && x.error == e.error
  {}
}
