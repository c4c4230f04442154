/**
 * The telephony provider, seen from the services: it places an outbound call
 * (answering with the provider's call id, or failing), and it turns a reply
 * into either "say this and listen" or "say this and hang up". The voice
 * markup itself is not modelled; a reply keeps only what it says and where
 * the caller's speech is posted.
 */
module Twilio {
  import opened Wrappers

  /** The path the provider fetches when the callee answers. */
  const WELCOME_PATH: string := "/api/twilio/call/welcome"

  /** The path the caller's recognised speech is posted to. */
  const HANDLE_RESPONSE_PATH: string := "/api/twilio/call/handle-response"

  /** createGatherTwiML / createHangupTwiML. */
  datatype Reply = Gather(say: Option<string>, action: string) | Hangup(farewell: string)

  /** Say `message`, then listen and post the speech to the handle-response path under `baseUrl`. */
  function GatherReply(message: Option<string>, baseUrl: string): Reply {
    Gather(message, baseUrl + HANDLE_RESPONSE_PATH)
  }

  /**
   * The outbound-call side of the provider. `answers(n)` is what the n-th
   * request gets back: the new call's id, or None when the request throws.
   */
  class Provider {
    /** Every request sent so far: the number dialled and the URL fetched on answer. */
    var placed: seq<(string, string)>
    const answers: nat -> Option<string>

    constructor (answers: nat -> Option<string>)
      ensures placed == [] && this.answers == answers
    {
      placed := [];
      this.answers := answers;
    }

    /** makeCall(to, baseUrl): one request, answered by the next scripted answer. */
    method MakeCall(to: string, baseUrl: string) returns (sid: Option<string>)
      modifies this
      ensures placed == old(placed) + [(to, baseUrl + WELCOME_PATH)]
      ensures sid == answers(|old(placed)|)
    {
      sid := answers(|placed|);
      placed := placed + [(to, baseUrl + WELCOME_PATH)];
    }
  }
}
