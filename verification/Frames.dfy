/** A coalesced frame is its messages, sent one by one. */
module CoalescedFrames {
  import opened JsonValues
  import opened Registry
  import opened Policies
  import opened Connections
  import opened Runs
  import opened Session
  import Trip

  function FromHome(v: View, ms: seq<Json>): seq<Event> {
    seq(|ms|, i requires 0 <= i < |ms| => FromHa(v, ms[i]))
  }

  /** The run goes on with HA's messages in their order. */
  lemma {:induction false} HaFrameIsRun(p: UserPolicy, v: View, es: seq<Event>, ms: seq<Json>)
    ensures HaFold(p, v, Run(p, es), ms) == Run(p, es + FromHome(v, ms))
  {
    var all := es + FromHome(v, ms);
    if ms == [] {
      assert all == es;
    } else {
      var n := |ms| - 1;
      HaFrameIsRun(p, v, es, ms[..n]);
      assert all[..|all| - 1] == es + FromHome(v, ms[..n]) && all[|all| - 1] == FromHa(v, ms[n]);
    }
  }

  /** The client's messages, each with the trip answer it gets: the switch is asked by every
      well-formed one that is read while the session is open. */
  function FromTheClient(p: UserPolicy, v: View, st: (ConnState, Trip.TripState), ms: seq<Json>,
                         interval: real, now: real, fileExists: bool): seq<Event>
  {
    if ms == [] then []
    else
      var n := |ms| - 1;
      var before := ClientFold(p, v, st, ms[..n], interval, now, fileExists);
      FromTheClient(p, v, st, ms[..n], interval, now, fileExists) +
        [FromClient(v, Trip.Checked(before.1, interval, now, fileExists).cached, ms[n])]
  }

  lemma {:induction false} ClientFrameIsRun(p: UserPolicy, v: View, es: seq<Event>, trip: Trip.TripState, ms: seq<Json>,
                                            interval: real, now: real, fileExists: bool)
    ensures ClientFold(p, v, (Run(p, es), trip), ms, interval, now, fileExists).0 ==
      Run(p, es + FromTheClient(p, v, (Run(p, es), trip), ms, interval, now, fileExists))
  {
    var events := FromTheClient(p, v, (Run(p, es), trip), ms, interval, now, fileExists);
    var all := es + events;
    if ms == [] {
      assert all == es;
    } else {
      var n := |ms| - 1;
      ClientFrameIsRun(p, v, es, trip, ms[..n], interval, now, fileExists);
      var front := FromTheClient(p, v, (Run(p, es), trip), ms[..n], interval, now, fileExists);
      assert all[..|all| - 1] == es + front && all[|all| - 1] == events[|events| - 1];
    }
  }
}
