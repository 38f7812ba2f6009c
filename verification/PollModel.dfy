/** The browser's copy of the event window: poll in web/app.js against the snapshots of
    tools/lab-server.py, which restart may replace by a new guest with a new epoch. The request and its
    answer are separate steps: while an answer is on its way, lines arrive and guests are replaced. */
module PollModel {
  import opened Words
  import opened HostModel
  import TraceText
  import KernelModel

  /** What /api/state reads: the epoch, the guest's tables and window, and whether its reader has ended. */
  datatype Server = Server(epoch: string, host: Host, ended: bool)

  /** The part of an answer that poll keeps. */
  datatype Reply = Reply(epoch: string, sequence: nat, events: seq<Event>)

  /** The globals of app.js that poll maintains. */
  datatype Client = Client(epoch: string, cursor: nat, events: seq<Event>)

  const NEW_CLIENT := Client("", 0, [])

  /** [e for e in events if e["id"] > after] */
  function Newer(events: seq<Event>, after: nat): seq<Event> {
    if events == [] then []
    else
      var last := |events| - 1;
      Newer(events[..last], after) + if events[last].id > after then [events[last]] else []
  }

  /** The events with an id up to `after`. */
  function Upto(events: seq<Event>, after: nat): seq<Event> {
    if events == [] then []
    else
      var last := |events| - 1;
      Upto(events[..last], after) + if events[last].id <= after then [events[last]] else []
  }

  datatype Polled = Polled(client: Client, accepted: bool)

  /** GET /api/state?after=...: the snapshot with only the newer events. */
  function Answer(s: Server, after: nat): Reply { Reply(s.epoch, s.host.sequence, Newer(s.host.events, after)) }

  /** poll on an answer. A changed epoch empties the client; unless it is the first one ever seen, the
      answer is dropped, since it was cut with a cursor of the old guest. */
  function Accept(c: Client, answer: Reply): Polled {
    if answer.epoch != c.epoch && c.epoch != "" then Polled(Client(answer.epoch, 0, []), false)
    else
      var kept := if answer.epoch != c.epoch then [] else c.events;
      Polled(Client(answer.epoch, answer.sequence, Last(kept + answer.events)), true)
  }

  /** A round trip with nothing in between. */
  function Poll(c: Client, s: Server): Polled { Accept(c, Answer(s, c.cursor)) }

  // ---- every interleaving ----

  datatype Action =
    | Arrive(line: string)     // a line of the trace reaches the guest
    | Restart(epoch: string)   // a new guest
    | Cut                      // the server answers the page's request
    | Receive                  // the page gets the answer
    | PollFails                // the request or its answer is lost

  /** The two sides and the answer on its way; beside them the window that answer was cut from, all the
      events of the current guest, and the epochs handed out so far. */
  datatype World = World(server: Server, client: Client, flight: Option<Reply>,
                         window: seq<Event>, history: seq<Event>, used: set<string>)

  function Start(epoch: string): World { World(Server(epoch, NEW_HOST, false), NEW_CLIENT, None, [], [], {epoch}) }

  /** The event a line adds to the window, if any. */
  function Recorded(h: Host, line: string): seq<Event> {
    var parts := TraceText.Split(TraceText.Rstrip(line));
    if |parts| < 3 || parts[0] != "ML" then []
    else match TraceText.ParseDecimal(parts[2])
      case None => []
      case Some(tick) =>
        if News(h, parts[1], parts[3..]) == Some(true) then [Event(h.sequence + 1, parts[1], tick, parts[3..])] else []
  }

  /** The reading thread on one line; an exception ends it. */
  function Reads(s: Server, line: string): Server {
    if s.ended then s
    else
      var r := EventLine(s.host, line);
      s.(host := r.host, ended := r.raised)
  }

  function Act(w: World, a: Action): World {
    match a
    case Arrive(line) =>
      w.(server := Reads(w.server, line),
         history := if w.server.ended then w.history else w.history + Recorded(w.server.host, line))
    case Restart(epoch) => w.(server := Server(epoch, NEW_HOST, false), history := [], used := w.used + {epoch})
    case Cut =>
      if w.flight.Some? then w
      else w.(flight := Some(Answer(w.server, w.client.cursor)), window := w.server.host.events)
    case Receive =>
      if w.flight == None then w else w.(client := Accept(w.client, w.flight.value).client, flight := None)
    case PollFails => w.(flight := None)
  }

  function ActAll(w: World, actions: seq<Action>): World
    decreases |actions|
  {
    if actions == [] then w else Act(ActAll(w, actions[..|actions| - 1]), actions[|actions| - 1])
  }

  /** secrets.token_hex never repeats an epoch and is never empty. */
  ghost predicate FreshEpochs(w: World, actions: seq<Action>) {
    forall n :: 0 <= n < |actions| && actions[n].Restart? ==>
      actions[n].epoch != "" && actions[n].epoch !in ActAll(w, actions[..n]).used
  }

  ghost predicate Increasing(events: seq<Event>, bound: nat) {
    && (forall i :: 0 <= i < |events| ==> 0 < events[i].id <= bound)
    && (forall i, j :: 0 <= i < j < |events| ==> events[i].id < events[j].id)
  }

  /** The server retains the end of the history; a client of the same epoch has the end of the history
      up to its cursor. */
  ghost predicate Agree(server: Server, client: Client, history: seq<Event>, used: set<string>) {
    && server.epoch in used && "" !in used
    && Increasing(history, server.host.sequence) && server.host.events == Last(history)
    && (client.epoch == "" ==> client.cursor == 0) && (client.epoch != "" ==> client.epoch in used)
    && (client.epoch == server.epoch ==>
          client.cursor <= server.host.sequence && client.events == Last(Upto(history, client.cursor)))
  }

  /** What an answer that is on its way will do: whenever it arrives, the client will agree with the server
      of that time, and an accepted answer gives the window it was cut from. */
  ghost predicate FlightOk(w: World) {
    w.flight.Some? ==>
      var p := Accept(w.client, w.flight.value);
      && Agree(w.server, p.client, w.history, w.used)
      && p.client.epoch == w.flight.value.epoch
      && (p.accepted <==> w.client.epoch in {"", w.flight.value.epoch})
      && (p.accepted ==> p.client.events == w.window && p.client.cursor == w.flight.value.sequence)
      && (!p.accepted ==> p.client.events == [] && p.client.cursor == 0)
  }

  ghost predicate Synced(w: World) { Agree(w.server, w.client, w.history, w.used) && FlightOk(w) }

  /** Event `n` is the first one after the cursor. */
  ghost predicate SplitAt(events: seq<Event>, after: nat, n: nat) {
    && n <= |events|
    && (forall i :: 0 <= i < n ==> events[i].id <= after)
    && (forall i :: n <= i < |events| ==> events[i].id > after)
  }

  /** An increasing history has such a place for every cursor. */
  lemma {:induction false} FindSplit(events: seq<Event>, bound: nat, after: nat) returns (n: nat)
    requires Increasing(events, bound)
    ensures SplitAt(events, after, n) && (after == 0 ==> n == 0) && (after >= bound ==> n == |events|)
    decreases |events|
  {
    if events == [] {
      n := 0;
    } else {
      var last := |events| - 1;
      if events[last].id <= after {
        n := |events|;
      } else {
        n := FindSplit(events[..last], bound, after);
      }
    }
  }

  lemma FrontSplit(events: seq<Event>, after: nat, n: nat)
    requires SplitAt(events, after, n) && events != []
    ensures var last := |events| - 1;
            && n <= last + 1 && SplitAt(events[..last], after, if n > last then last else n)
            && (events[last].id > after <==> n <= last)
  {
  }

  /** Cutting there is what both filters do. */
  lemma {:induction false} SplitFilters(events: seq<Event>, after: nat, n: nat)
    requires SplitAt(events, after, n)
    ensures Newer(events, after) == events[n..] && Upto(events, after) == events[..n]
    decreases |events|
  {
    if events != [] {
      hide SplitAt;
      var last := |events| - 1;
      FrontSplit(events, after, n);
      SplitFilters(events[..last], after, if n > last then last else n);
      if n > last {
        WholeFront(events);
      } else {
        TailOfFront(events, n);
      }
    }
  }

  lemma WholeFront(events: seq<Event>)
    requires events != []
    ensures var last := |events| - 1;
            && events[..last][last..] == [] && events[|events|..] == [] && events[..last][..last] == events[..last]
            && events[..|events|] == events[..last] + [events[last]]
  {
  }

  lemma TailOfFront(events: seq<Event>, n: nat)
    requires n < |events|
    ensures events[n..] == events[..|events| - 1][n..] + [events[|events| - 1]]
    ensures events[..n] == events[..|events| - 1][..n]
  {
  }

  lemma JoinNear(h: seq<Event>, n: nat, from: nat)
    requires from == (if |h| > WINDOW then |h| - WINDOW else 0) && from <= n <= |h|
    ensures Last(Last(h[..n]) + h[n..]) == h[from..]
  {
    var start := if n > WINDOW then n - WINDOW else 0;
    assert Last(h[..n]) == h[start..n];
    assert h[start..n] + h[n..] == h[start..];
    assert h[start..][from - start..] == h[from..];
  }

  lemma JoinFar(kept: seq<Event>, tail: seq<Event>)
    requires |tail| == WINDOW
    ensures Last(kept + tail) == tail
  {
  }

  /** The window of what the client kept and what it had not seen is the window of the whole history. */
  lemma WindowJoins(history: seq<Event>, after: nat, n: nat)
    requires SplitAt(history, after, n)
    ensures Last(Last(history[..n]) + Newer(Last(history), after)) == Last(history)
  {
    hide Newer;
    var from := if |history| > WINDOW then |history| - WINDOW else 0;
    var window := history[from..];
    assert Last(history) == window;
    if n >= from {
      SplitFilters(window, after, n - from);
      assert window[n - from..] == history[n..];
      JoinNear(history, n, from);
    } else {
      SplitFilters(window, after, 0);
      assert window[0..] == window;
      JoinFar(Last(history[..n]), window);
    }
  }

  /** A round trip with nothing in between: accepted unless the page knows another guest, it leaves the
      client with exactly the server's window. */
  lemma PollAccepted(s: Server, c: Client, history: seq<Event>, used: set<string>)
    requires Agree(s, c, history, used)
    ensures var p := Poll(c, s);
            && Agree(s, p.client, history, used) && p.client.epoch == s.epoch
            && (p.accepted <==> c.epoch in {"", s.epoch})
            && (p.accepted ==> p.client.events == s.host.events && p.client.cursor == s.host.sequence)
            && (!p.accepted ==> p.client.events == [] && p.client.cursor == 0)
  {
    hide Newer, Upto, Last;
    var sequence := s.host.sequence;
    var p := Poll(c, s);
    var zero := FindSplit(history, sequence, 0);
    SplitFilters(history, 0, zero);
    NothingKept();
    if p.accepted {
      var n := FindSplit(history, sequence, c.cursor);
      SplitFilters(history, c.cursor, n);
      assert history[..0] == [];
      WindowJoins(history, c.cursor, n);
      var all := FindSplit(history, sequence, sequence);
      SplitFilters(history, sequence, all);
      assert history[..|history|] == history;
    }
  }

  lemma NothingKept()
    ensures Last([]) == []
  {
  }

  /** A line adds at most one event, under the next number, and leaves the window otherwise alone; also a
      line that raises. */
  lemma LineRecords(h: Host, line: string)
    ensures var h', added := EventLine(h, line).host, Recorded(h, line);
            && h.sequence <= h'.sequence
            && (added == [] ==> h'.events == h.events)
            && (added != [] ==> |added| == 1 && added[0].id == h'.sequence == h.sequence + 1 && h'.events == Last(h.events + added))
  {
    hide Last, News, TraceText.Split, TraceText.Rstrip, TraceText.ParseDecimal, TableLine;
    var parts := TraceText.Split(TraceText.Rstrip(line));
    if |parts| >= 3 && parts[0] == "ML" && TraceText.ParseDecimal(parts[2]).Some? {
      var news := News(h, parts[1], parts[3..]);
      var h1 := Note(h, parts[1], TraceText.ParseDecimal(parts[2]).value, parts[3..], news == Some(true));
      TablesOnly(h1, parts[1], parts[3..]);
    }
  }

  lemma TablesOnly(h: Host, kind: string, fields: seq<string>)
    ensures var r := TableLine(h, kind, fields);
            r.Some? ==> r.value.events == h.events && r.value.sequence == h.sequence
  {
    hide TraceText.ParseDecimal;
  }

  lemma ArriveKeeps(s: Server, c: Client, history: seq<Event>, used: set<string>, line: string)
    requires Agree(s, c, history, used) && !s.ended
    ensures Agree(Reads(s, line), c, history + Recorded(s.host, line), used)
  {
    hide Newer, Upto, Last, EventLine, Recorded;
    LineRecords(s.host, line);
    var added := Recorded(s.host, line);
    if added == [] {
      assert history + added == history;
    } else {
      var e := added[0];
      assert added == [e];
      LastAppends(history, e);
      UptoAppends(history, e, c.cursor);
    }
  }

  lemma LastAppends(history: seq<Event>, e: Event)
    ensures Last(Last(history) + [e]) == Last(history + [e])
  {
  }

  lemma UptoAppends(history: seq<Event>, e: Event, after: nat)
    ensures after < e.id ==> Upto(history + [e], after) == Upto(history, after)
  {
    assert (history + [e])[..|history|] == history;
  }

  lemma RestartKeeps(s: Server, c: Client, history: seq<Event>, used: set<string>, epoch: string)
    requires Agree(s, c, history, used) && epoch != "" && epoch !in used
    ensures Agree(Server(epoch, NEW_HOST, false), c, [], used + {epoch})
  {
  }

  lemma ActKeeps(w: World, a: Action)
    requires Synced(w) && (a.Restart? ==> a.epoch != "" && a.epoch !in w.used)
    ensures Synced(Act(w, a))
  {
    hide Agree, Answer, Accept, Reads, Recorded;
    match a
    case Arrive(line) =>
      if !w.server.ended {
        ArriveKeeps(w.server, w.client, w.history, w.used, line);
        if w.flight.Some? {
          ArriveKeeps(w.server, Accept(w.client, w.flight.value).client, w.history, w.used, line);
        }
      } else {
        assert Reads(w.server, line) == w.server by { EndedReadsNothing(w.server, line); }
      }
    case Restart(epoch) =>
      RestartKeeps(w.server, w.client, w.history, w.used, epoch);
      if w.flight.Some? {
        RestartKeeps(w.server, Accept(w.client, w.flight.value).client, w.history, w.used, epoch);
      }
    case Cut =>
      PollAccepted(w.server, w.client, w.history, w.used);
      AnswerNames(w.server, w.client.cursor);
    case _ =>
  }

  lemma EndedReadsNothing(s: Server, line: string)
    requires s.ended
    ensures Reads(s, line) == s
  {
  }

  lemma AnswerNames(s: Server, after: nat)
    ensures Answer(s, after).epoch == s.epoch && Answer(s, after).sequence == s.host.sequence
  {
  }

  lemma FreshBefore(w: World, actions: seq<Action>, n: nat)
    requires FreshEpochs(w, actions) && n <= |actions|
    ensures FreshEpochs(w, actions[..n])
  {
    hide ActAll;
    forall i | 0 <= i < n && actions[..n][i].Restart?
      ensures actions[..n][i].epoch != "" && actions[..n][i].epoch !in ActAll(w, actions[..n][..i]).used
    {
      assert actions[..n][..i] == actions[..i] && actions[..n][i] == actions[i];
    }
  }

  /** Synchronisation: under every interleaving of lines, requests, answers on their way, lost answers and
      restarts, both sides stay related, and a round trip from there, unless it is dropped, would give the
      client exactly the retained window of the current guest: nothing lost, nothing twice, nothing of
      another epoch. */
  lemma {:induction false} AlwaysSynced(w: World, actions: seq<Action>)
    requires Synced(w) && FreshEpochs(w, actions)
    ensures var w' := ActAll(w, actions);
            var p := Poll(w'.client, w'.server);
            Synced(w') && (p.accepted ==> p.client.events == w'.server.host.events && p.client.epoch == w'.server.epoch)
    decreases |actions|
  {
    hide Agree, FlightOk, Poll, Act;
    if actions != [] {
      var before, last := actions[..|actions| - 1], |actions| - 1;
      FreshBefore(w, actions, last);
      AlwaysSynced(w, before);
      ActKeeps(ActAll(w, before), actions[last]);
    }
    var w' := ActAll(w, actions);
    PollAccepted(w'.server, w'.client, w'.history, w'.used);
  }

  /** From the first guest and a page that has seen none, everything that can happen keeps them so. */
  lemma SyncedFromStart(epoch: string, actions: seq<Action>)
    requires epoch != "" && FreshEpochs(Start(epoch), actions)
    ensures Synced(ActAll(Start(epoch), actions))
  {
    hide Synced, ActAll, FreshEpochs;
    StartSynced(epoch);
    AlwaysSynced(Start(epoch), actions);
  }

  lemma StartSynced(epoch: string)
    requires epoch != ""
    ensures Synced(Start(epoch))
  {
  }

  /** Between the cut and the receipt neither the answer nor the client changes. */
  lemma {:induction false} InFlight(w: World, actions: seq<Action>, m: nat, n: nat)
    requires m < n <= |actions| && actions[m].Cut? && ActAll(w, actions[..m]).flight == None
    requires forall i :: m < i < n ==> !actions[i].Receive? && !actions[i].PollFails?
    ensures var cut, now := ActAll(w, actions[..m]), ActAll(w, actions[..n]);
            && now.flight == Some(Answer(cut.server, cut.client.cursor))
            && now.window == cut.server.host.events && now.client == cut.client
    decreases n
  {
    hide Answer, Accept, Reads, Recorded;
    assert actions[..n][..n - 1] == actions[..n - 1];
    if m < n - 1 {
      InFlight(w, actions, m, n - 1);
    }
  }

  /** An answer cut at step `m` and received at step `n`, whatever lines arrived and guests were replaced in
      between: the client accepts it exactly when it knew no guest or the one the answer came from, and then
      holds exactly the window of the moment of the cut; otherwise it is empty and asks anew. */
  lemma ReceivedWindow(w: World, actions: seq<Action>, m: nat, n: nat)
    requires Synced(w) && FreshEpochs(w, actions)
    requires m < n < |actions| && actions[m].Cut? && actions[n].Receive? && ActAll(w, actions[..m]).flight == None
    requires forall i :: m < i < n ==> !actions[i].Receive? && !actions[i].PollFails?
    ensures var cut, after := ActAll(w, actions[..m]), ActAll(w, actions[..n + 1]);
            && after.client.epoch == cut.server.epoch && after.flight == None
            && if cut.client.epoch in {"", cut.server.epoch}
               then after.client.events == cut.server.host.events && after.client.cursor == cut.server.host.sequence
               else after.client.events == [] && after.client.cursor == 0
  {
    hide Agree, Answer, Accept, ActAll, FreshEpochs;
    InFlight(w, actions, m, n);
    FreshBefore(w, actions, n);
    AlwaysSynced(w, actions[..n]);
    var cut := ActAll(w, actions[..m]);
    AnswerNames(cut.server, cut.client.cursor);
    OneMore(w, actions, n);
  }

  lemma OneMore(w: World, actions: seq<Action>, n: nat)
    requires n < |actions|
    ensures ActAll(w, actions[..n + 1]) == Act(ActAll(w, actions[..n]), actions[n])
  {
    hide Act;
    assert actions[..n + 1][..n] == actions[..n];
  }

  // ---- from the trace to the page ----

  /** The lines that have reached the current guest. */
  function Arrived(actions: seq<Action>): seq<string>
    decreases |actions|
  {
    if actions == [] then []
    else match actions[|actions| - 1]
      case Arrive(line) => Arrived(actions[..|actions| - 1]) + [line]
      case Restart(_) => []
      case _ => Arrived(actions[..|actions| - 1])
  }

  /** The server is at all times the fold of the lines its guest has seen. */
  lemma {:induction false} ServerIsFold(epoch: string, actions: seq<Action>)
    ensures var s := ActAll(Start(epoch), actions).server;
            Handled(s.host, s.ended) == HostLines(Arrived(actions))
    decreases |actions|
  {
    hide EventLine, Accept, Answer, Recorded;
    if actions != [] {
      var before, last := actions[..|actions| - 1], actions[|actions| - 1];
      ServerIsFold(epoch, before);
      if last.Arrive? {
        assert (Arrived(before) + [last.line])[..|Arrived(before)|] == Arrived(before);
      }
    }
  }

  /** End to end: when the lines that had reached the guest at the cut are those of a kernel trace, an
      accepted answer leaves the page with exactly the window of that trace, however much has happened
      since. */
  lemma PageShowsTrace(epoch: string, actions: seq<Action>, m: nat, n: nat, trace: seq<KernelModel.Record>)
    requires epoch != "" && FreshEpochs(Start(epoch), actions)
    requires m < n < |actions| && actions[m].Cut? && actions[n].Receive? && ActAll(Start(epoch), actions[..m]).flight == None
    requires forall i :: m < i < n ==> !actions[i].Receive? && !actions[i].PollFails?
    requires Arrived(actions[..m]) == Lines(trace) && forall r :: r in trace ==> Nameable(r)
    ensures var cut, after := ActAll(Start(epoch), actions[..m]), ActAll(Start(epoch), actions[..n + 1]);
            cut.client.epoch in {"", cut.server.epoch} ==>
              after.client.events == Replay(trace).events && after.client.cursor == Replay(trace).sequence
  {
    hide ActAll, Arrived, HostLines, Replay, Agree, FlightOk, FreshEpochs;
    assert Synced(Start(epoch)) by { StartSynced(epoch); }
    ReceivedWindow(Start(epoch), actions, m, n);
    ServerIsFold(epoch, actions[..m]);
    LinesReplay(trace);
  }

  /** A dropped answer is followed by an accepted one, unless the guest is replaced again. */
  lemma SecondPollAccepted(c: Client, s: Server)
    requires s.epoch != ""
    ensures Poll(Poll(c, s).client, s).accepted
  {
  }
}
