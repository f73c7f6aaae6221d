/**
 * Inhibitors (src/inhibitors/): predicates over the invoking message that may
 * object to a command, and the one the bot ships, `botDev`.
 */
module Inhibitors {
  import opened Js
  import opened Platform

  /**
   * What an inhibitor can return: `false`; a bare reason string; an object with a
   * `reason` and a `response` (an absent field is ""); `null`, whose `.reason` the
   * dispatcher reads and so throws; or an exception the inhibitor itself raises.
   */
  datatype Inhibition =
    | NoObjection
    | Reason(reason: string)
    | Detailed(reason: string, response: string)
    | NullResult
    | Raises

  type Inhibitor = Message -> Inhibition

  /** `developerIds` of src/config.js: the `DEVELOPER_IDS` variable split at every comma. */
  function DeveloperIds(env: string): seq<string> {
    SplitOn(env, ',')
  }

  /** src/inhibitors/botDev.js: no objection for a developer, the bare reason 'not-developer' otherwise. */
  function BotDev(developerIds: seq<string>, message: Message): (r: Inhibition)
    ensures r == NoObjection <==> message.author.id in developerIds
    ensures r != NoObjection ==> r == Reason("not-developer")
    ensures !r.Detailed?
  {
    if message.author.id in developerIds then NoObjection else Reason("not-developer")
  }

  function BotDevInhibitor(developerIds: seq<string>): Inhibitor {
    (m: Message) => BotDev(developerIds, m)
  }

  /**
   * Membership is exact string equality against the comma-separated list: for ids
   * without commas, an author passes iff their id is one of them.
   */
  lemma DeveloperIdsMembership(ids: seq<string>, message: Message)
    requires ids != []
    requires forall k :: 0 <= k < |ids| ==> ',' !in ids[k]
    ensures DeveloperIds(Join(ids, ",")) == ids
    ensures BotDev(DeveloperIds(Join(ids, ",")), message) == NoObjection <==> message.author.id in ids
  {
    SplitOnJoin(ids, ',');
  }
}
