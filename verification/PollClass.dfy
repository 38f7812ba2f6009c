/** tools/lab-server.py and the poll loop of web/app.js in place: the bridge around one guest, the page's
    globals, and both driven through any interleaving. */
module PollClass {
  import opened Words
  import HostModel
  import opened PollModel
  import GuestClass

  /** Laboratory: the current guest and its epoch. */
  class Bridge {
    var epoch: string
    var guest: GuestClass.Guest

    function Abs(): Server reads this, guest { Server(epoch, guest.Abs(), guest.failed) }

    constructor (token: string)
      ensures fresh(guest) && Abs() == Start(token).server
    {
      epoch := token;
      guest := new GuestClass.Guest();
    }

    /** restart: a guest nobody has seen replaces the old one, whose object is left as it is. */
    method Renew(token: string)
      modifies this
      ensures fresh(guest) && guest.Valid() && Abs() == Start(token).server
    {
      epoch := token;
      guest := new GuestClass.Guest();
    }

    /** One line for the current guest's reader; an exception ends the thread. */
    method Take(line: string)
      modifies guest
      ensures Abs() == Reads(old(Abs()), line)
    {
      if guest.failed { return; }
      var raised := guest.Handle(line);
      if raised { guest.failed := true; }
    }

    /** The state request of do_GET, with its event filter. */
    method State(after: nat) returns (answer: Reply)
      ensures answer == Answer(Abs(), after)
    {
      var events := guest.events;
      var kept := [];
      var i := 0;
      while i < |events|
        invariant 0 <= i <= |events| && kept == Newer(events[..i], after)
      {
        assert events[..i + 1][..i] == events[..i];
        if events[i].id > after { kept := kept + [events[i]]; }
        i := i + 1;
      }
      assert events[..i] == events;
      return Reply(epoch, guest.sequence, kept);
    }
  }

  /** The page's globals, reassigned by poll. */
  class Page {
    var epoch: string
    var cursor: nat
    var events: seq<HostModel.Event>

    function Abs(): Client reads this { Client(epoch, cursor, events) }

    constructor ()
      ensures Abs() == NEW_CLIENT
    {
      epoch, cursor, events := "", 0, [];
    }

    /** What poll does when the answer is there: `answer` is None when the request failed. */
    method PollServer(answer: Option<Reply>) returns (accepted: bool)
      modifies this
      ensures match answer
              case None => !accepted && Abs() == old(Abs())
              case Some(a) => Polled(Abs(), accepted) == Accept(old(Abs()), a)
    {
      hide HostModel.Last;
      if answer == None { return false; }
      var state := answer.value;
      if state.epoch != epoch {
        var previousEpoch := epoch;
        epoch, cursor, events := state.epoch, 0, [];
        if previousEpoch != "" { return false; }
      }
      events := events + state.events;
      events := HostModel.Last(events);
      cursor := state.sequence;
      return true;
    }
  }

  /** A bridge and a page from their start through any interleaving: they go exactly where the model goes,
      so with fresh epochs they are in step all along. */
  method Drive(first: string, actions: seq<Action>) returns (bridge: Bridge, page: Page, flight: Option<Reply>)
    ensures var w := ActAll(Start(first), actions);
            && bridge.Abs() == w.server && page.Abs() == w.client && flight == w.flight
            && (first != "" && FreshEpochs(Start(first), actions) ==> Synced(w))
  {
    hide Reads, Answer, Accept, Recorded, Synced;
    bridge := new Bridge(first);
    page := new Page();
    flight := None;
    var n := 0;
    while n < |actions|
      invariant 0 <= n <= |actions| && fresh(bridge) && fresh(bridge.guest) && fresh(page)
      invariant var w := ActAll(Start(first), actions[..n]);
                bridge.Abs() == w.server && page.Abs() == w.client && flight == w.flight
    {
      ghost var w := ActAll(Start(first), actions[..n]);
      assert actions[..n + 1][..n] == actions[..n];
      match actions[n] {
        case Arrive(line) =>
          bridge.Take(line);
        case Restart(token) =>
          bridge.Renew(token);
        case Cut =>
          if flight == None {
            var answer := bridge.State(page.cursor);
            flight := Some(answer);
          }
        case Receive =>
          if flight.Some? {
            var accepted := page.PollServer(flight);
            flight := None;
          }
        case PollFails =>
          var accepted := page.PollServer(None);
          flight := None;
      }
      n := n + 1;
    }
    assert actions[..n] == actions;
    if first != "" && FreshEpochs(Start(first), actions) {
      SyncedFromStart(first, actions);
    }
  }
}
