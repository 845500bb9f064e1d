/** The telemetry record that the agent queues and uploads, and the manager stores. */
module Telemetry {
  import opened Options

  /** What an offline evaluation left behind; `commands` names the commands it executed. */
  datatype Evidence = Evidence(text: string, commands: seq<string>)

  /** One queued item. `raw` is absent when the event carries no raw form. Texts stand for JSON values and are
      compared for equality only. */
  datatype Record = Record(
    eventId: string, agentId: string, raw: Option<string>, normalized: string,
    source: Option<string>, evidence: Option<Evidence>)

  function Ids(rs: seq<Record>): (ids: seq<string>)
    ensures |ids| == |rs| && forall i :: 0 <= i < |rs| ==> ids[i] == rs[i].eventId
  {
    seq(|rs|, i requires 0 <= i < |rs| => rs[i].eventId)
  }

  ghost predicate DistinctIds(rs: seq<Record>) {
    forall i, j :: 0 <= i < j < |rs| ==> rs[i].eventId != rs[j].eventId
  }
}
