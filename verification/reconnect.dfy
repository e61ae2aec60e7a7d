/** The reconnect detector (src/App.tsx:220-246): every 2.5 seconds the client
    reads the realtime client id (empty while disconnected) and compares it
    with the last id it stored; a change of id bumps a counter whose change
    re-runs the data fetch and the subscriptions. The timer is left out: the
    model is one poll at a time. */
module Reconnect {

  /** The stored last client id (`''` when none) and the refresh counter. */
  datatype Detector = Detector(lastId: string, refreshes: int)

  /** One poll as written: three checks in sequence, the first of which returns
      early. A stored id is cleared when the client is seen disconnected, so
      the id that the client gets on reconnecting meets an empty store and is
      taken for a first connection. */
  function PollAsWritten(d: Detector, current: string): (r: Detector)
    ensures d.lastId == "" && current != "" ==> r == Detector(current, d.refreshes)
    ensures d.lastId != "" && current != "" && d.lastId != current ==> r == Detector(current, d.refreshes + 1)
    ensures current == "" ==> r == Detector("", d.refreshes)
    ensures current == d.lastId ==> r == d
    ensures r.lastId == current
  {
    if d.lastId == "" && current != "" then Detector(current, d.refreshes)
    else
      var afterChange :=
        if d.lastId != "" && current != "" && d.lastId != current then Detector(current, d.refreshes + 1)
        else d;
      if afterChange.lastId != "" && current == "" then afterChange.(lastId := "")
      else afterChange
  }

  /** A poll changes the counter by at most one and never lowers it. */
  lemma PollAsWrittenCountsAtMostOne(d: Detector, current: string)
    ensures d.refreshes <= PollAsWritten(d, current).refreshes <= d.refreshes + 1
    ensures PollAsWritten(d, current).refreshes == d.refreshes + 1 <==>
      d.lastId != "" && current != "" && d.lastId != current
  {
  }

  /** The counterexample: connected as "a", seen disconnected, back as "b".
      The client did reconnect with a new id, yet no refresh is triggered. */
  lemma ReconnectAfterSeenDisconnectIsMissed()
    ensures var d0 := Detector("a", 0);
      var d1 := PollAsWritten(d0, "");
      var d2 := PollAsWritten(d1, "b");
      d2 == Detector("b", 0)
  {
  }

  /** The detector as intended: on a disconnect it forgets nothing, so the id
      stored is always the last one seen while connected and a reconnect
      under any new id counts as a refresh. */
  function Poll(d: Detector, current: string): (r: Detector)
    ensures d.lastId == "" && current != "" ==> r == Detector(current, d.refreshes)
    ensures d.lastId != "" && current != "" && d.lastId != current ==> r == Detector(current, d.refreshes + 1)
    ensures current == "" || current == d.lastId ==> r == d
  {
    if current == "" then d
    else if d.lastId == "" then Detector(current, d.refreshes)
    else if d.lastId != current then Detector(current, d.refreshes + 1)
    else d
  }

  /** With the intended detector a seen disconnection does not hide the
      reconnect: coming back under a new id counts one refresh. */
  lemma ReconnectAfterSeenDisconnectRefreshes(d: Detector, next: string)
    requires d.lastId != "" && next != "" && next != d.lastId
    ensures Poll(Poll(d, ""), next) == Detector(next, d.refreshes + 1)
  {
  }

  /** Apart from the disconnect case the intended detector agrees with the
      written one. */
  lemma PollAgreesWhileConnected(d: Detector, current: string)
    requires current != ""
    ensures Poll(d, current) == PollAsWritten(d, current)
  {
  }

  /** Polls over a run of observed client ids, in order. */
  function Run(d: Detector, ids: seq<string>): (r: Detector)
    ensures d.refreshes <= r.refreshes <= d.refreshes + |ids|
    decreases |ids|
  {
    if |ids| == 0 then d else Run(Poll(d, ids[0]), ids[1..])
  }

  /** The last non-empty id in `ids`, or `last` when there is none. */
  function LastSeen(last: string, ids: seq<string>): string
    decreases |ids|
  {
    if |ids| == 0 then last
    else LastSeen(if ids[0] != "" then ids[0] else last, ids[1..])
  }

  /** The number of times the non-empty id changes along the run, not
      counting the very first id seen. */
  function Changes(last: string, ids: seq<string>): nat
    decreases |ids|
  {
    if |ids| == 0 then 0
    else
      var step := if last != "" && ids[0] != "" && ids[0] != last then 1 else 0;
      step + Changes(if ids[0] != "" then ids[0] else last, ids[1..])
  }

  /** Over any run of polls, disconnections in between or not, the intended
      detector stores the last id seen and counts one refresh per change of id. */
  lemma {:induction false} RunCountsEveryChange(d: Detector, ids: seq<string>)
    ensures Run(d, ids) == Detector(LastSeen(d.lastId, ids), d.refreshes + Changes(d.lastId, ids))
    decreases |ids|
  {
    if |ids| > 0 {
      RunCountsEveryChange(Poll(d, ids[0]), ids[1..]);
    }
  }
}
