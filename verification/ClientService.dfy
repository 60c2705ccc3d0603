/**
 The client serving events on its tables in place: every handler takes the step of
 the state machine and leaves the client valid, so a client that serves any events
 is in a state that the machine reaches.
 */
module ClientService {
  import opened Octets
  import opened ClientState
  import opened ClientH1
  import opened ClientPool
  import opened ClientReapKeeps
  import opened ClientRuns
  import opened ClientTable

  /** Any event of an HTTP/1.1 connection; a send completes only once. */
  method HandleConnection(client: Client, event: Event)
    requires client.Valid() && FromConnection(event)
    requires event.SentEvent? && event.h1 < |client.h1| ==> |client.traffic| == |client.h1| && client.traffic[event.h1].inFlight > 0
    modifies client
    ensures client.Valid() && client.View() == Step(old(client.View()), event)
  {
    ConnectionKeeps(client.View(), event);
    client.Serves(event.h1);
    match event {
      case ConnectedEvent(j, send, arm, ending) => client.OnConnected(j, send, arm, ending);
      case SentEvent(j, step, ending) => client.OnSent(j, step, ending);
      case ReceiveEvent(j, parse, sink, arm, ending) => client.OnReceive(j, parse, sink, arm, ending);
      case ClosedEvent(j, failed, parse, sink, ending) => client.OnClosed(j, failed, parse, sink, ending);
    }
  }

  /** The events of the file runtime and the pass over pending closes. */
  method HandleProgress(client: Client, event: Event)
    requires client.Valid() && (event.FileReadyEvent? || event.FileSinkReadyEvent? || event.RetryClosesEvent?)
    modifies client
    ensures client.Valid() && client.View() == Step(old(client.View()), event)
  {
    H1Keeps(client.View(), event);
    client.Serves(0);
    match event {
      case FileReadyEvent(i, step, ending) => client.OnFileReady(i, step, ending);
      case FileSinkReadyEvent(i, sink, arm, ending) =>
        client.Pointed(i);
        client.OnFileSinkReady(i, sink, arm, ending);
      case RetryClosesEvent(net) => client.RetryAllCloses(net);
    }
  }

  /** A cancellation by the application, the pass over deadlines, and the start of a stop. */
  method HandleApplication(client: Client, event: Event)
    requires client.Valid() && (event.CancelEvent? || event.ExpireEvent? || event.StopEvent?)
    modifies client
    ensures client.Valid() && client.View() == Step(old(client.View()), event)
  {
    ApplicationKeeps(client.View(), event);
    match event {
      case CancelEvent(call) => client.CancelRequest(call);
      case ExpireEvent(now, answers) => client.ExpireAll(now, answers);
      case StopEvent => client.admissionOpen, client.stopActive := false, true;
    }
  }

  /** The pass over finished requests keeps the client valid, error or not. */
  method HandleReap(client: Client, net: Net) returns (status: Status)
    requires client.Valid()
    modifies client
    ensures client.Valid() && (client.View(), status) == Reap(old(client.View()), net)
  {
    ReapKeeps(client.View(), net);
    status := client.ReapAll(net);
  }

  predicate InPlace(e: Event) {
    || FromConnection(e) || e.FileReadyEvent? || e.FileSinkReadyEvent? || e.RetryClosesEvent?
    || e.CancelEvent? || e.ExpireEvent? || e.StopEvent?
  }

  /** A handler exists for the event, and a send that completes was in flight. */
  predicate Handleable(c: State, e: Event) {
    InPlace(e) && (e.SentEvent? && e.h1 < |c.h1| ==> |c.traffic| == |c.h1| && c.traffic[e.h1].inFlight > 0)
  }

  /** Any events, one after the other: what the client then is, the state machine reaches. */
  method Serve(client: Client, events: seq<Event>)
    requires client.Valid()
    requires forall k :: 0 <= k < |events| ==> Handleable(Run(client.View(), events[..k]), events[k])
    modifies client
    ensures client.Valid() && client.View() == Run(old(client.View()), events)
  {
    ghost var start := client.View();
    for k := 0 to |events|
      invariant client.Valid() && client.View() == Run(start, events[..k])
    {
      assert events[..k + 1][..k] == events[..k] && Handleable(Run(start, events[..k]), events[k]);
      if FromConnection(events[k]) {
        HandleConnection(client, events[k]);
      } else if events[k].CancelEvent? || events[k].ExpireEvent? || events[k].StopEvent? {
        HandleApplication(client, events[k]);
      } else {
        HandleProgress(client, events[k]);
      }
    }
    assert events[..|events|] == events;
  }
}
