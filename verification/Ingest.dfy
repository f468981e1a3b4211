/** Ingestion: a monitor's ring buffer, its mailbox loop, and the pump that routes a source's
    samples into monitors through acknowledged feeds, under every interleaving. */
module Ingest {
  import opened Wrappers

  datatype Sample<K, V> = Sample(key: K, view: V, timestamp: int)

  datatype Update<K, V> = Update(key: K, view: V)

  /** A monitor's state. */
  datatype Monitor<K, V> = Monitor(key: K, capacity: nat, history: seq<Sample<K, V>>, latest: Option<V>)

  function Fresh<K, V>(key: K, capacity: nat): Monitor<K, V> {
    Monitor(key, capacity, [], None)
  }

  /** The ring after one more sample; an empty ring has nothing to drop. */
  function Pushed<T>(history: seq<T>, capacity: nat, x: T): seq<T> {
    (if |history| == capacity && history != [] then history[1..] else history) + [x]
  }

  function Ingested<K(==), V>(m: Monitor<K, V>, s: Sample<K, V>): Monitor<K, V> {
    if s.key != m.key then m
    else m.(history := Pushed(m.history, m.capacity, s), latest := Some(s.view))
  }

  function UpdateOf<K(==), V>(m: Monitor<K, V>, s: Sample<K, V>): seq<Update<K, V>> {
    if s.key != m.key then [] else [Update(m.key, s.view)]
  }

  class SampleMonitor<K(==), V> {
    const key: K
    const capacity: nat
    var history: seq<Sample<K, V>>
    var latest: Option<V>

    ghost function Abs(): Monitor<K, V>
      reads this
    {
      Monitor(key, capacity, history, latest)
    }

    constructor (key: K, capacity: nat)
      ensures Abs() == Fresh(key, capacity)
    {
      this.key, this.capacity := key, capacity;
      history, latest := [], None;
    }

    /** A sample of another key is dropped; any other is pushed, and its update returned. */
    method Ingest(s: Sample<K, V>) returns (update: Option<Update<K, V>>)
      modifies this
      ensures Abs() == Ingested(old(Abs()), s)
      ensures UpdateOf(old(Abs()), s) == if update.Some? then [update.value] else []
    {
      if s.key != key {
        return None;
      }
      if |history| == capacity {
        history := if history == [] then [] else history[1..];
      }
      history := history + [s];
      latest := Some(s.view);
      update := Some(Update(key, s.view));
    }

    method Snapshot() returns (snapshot: Monitor<K, V>)
      ensures snapshot == Abs()
    {
      snapshot := Monitor(key, capacity, history, latest);
    }
  }

  // ----- The ring -----

  function IngestedAll<K(==), V>(m: Monitor<K, V>, samples: seq<Sample<K, V>>): Monitor<K, V> {
    if samples == [] then m
    else Ingested(IngestedAll(m, samples[..|samples| - 1]), samples[|samples| - 1])
  }

  /** The samples of one key, in order. */
  function OfKey<K(==), V>(samples: seq<Sample<K, V>>, key: K): seq<Sample<K, V>> {
    if samples == [] then []
    else
      var init, last := OfKey(samples[..|samples| - 1], key), samples[|samples| - 1];
      if last.key == key then init + [last] else init
  }

  function LastOf<T>(s: seq<T>, n: nat): seq<T> {
    if |s| <= n then s else s[|s| - n..]
  }

  /** What a ring of this capacity holds of what it was given. */
  function Ring<T>(seen: seq<T>, capacity: nat): seq<T> {
    if capacity == 0 then seen else LastOf(seen, capacity)
  }

  lemma PushedIsRing<T>(seen: seq<T>, capacity: nat, x: T)
    ensures Pushed(Ring(seen, capacity), capacity, x) == Ring(seen + [x], capacity)
  {
  }

  lemma EmptyRing<T>(capacity: nat)
    ensures Ring<T>([], capacity) == []
  {
  }

  /** From a fresh monitor, the ring holds the last `capacity` accepted samples, in order, and
      the latest view is the last one's; a ring of capacity zero is never full, and holds all. */
  lemma {:induction false} RingHolds<K, V>(key: K, capacity: nat, samples: seq<Sample<K, V>>)
    ensures var m, accepted := IngestedAll(Fresh(key, capacity), samples), OfKey(samples, key);
            m.key == key && m.capacity == capacity &&
            m.history == Ring(accepted, capacity) &&
            m.latest == if accepted == [] then None else Some(accepted[|accepted| - 1].view)
    decreases |samples|
  {
    hide Pushed, Ring;
    if samples == [] {
      EmptyRing<Sample<K, V>>(capacity);
    } else {
      var init, last := samples[..|samples| - 1], samples[|samples| - 1];
      RingHolds(key, capacity, init);
      PushedIsRing(OfKey(init, key), capacity, last);
    }
  }

  /** The ring keeps within its capacity on every input exactly when the capacity is not zero. */
  lemma BoundedExactlyIfPositive<K, V>(key: K, capacity: nat, view: V)
    ensures (forall samples: seq<Sample<K, V>> :: |IngestedAll(Fresh(key, capacity), samples).history| <= capacity)
            <==> capacity >= 1
  {
    if capacity == 0 {
      var one := [Sample(key, view, 0)];
      RingHolds(key, capacity, one);
      assert one[..0] == [];
      assert |IngestedAll(Fresh(key, capacity), one).history| == 1;
    } else {
      forall samples: seq<Sample<K, V>> ensures |IngestedAll(Fresh(key, capacity), samples).history| <= capacity {
        RingHolds(key, capacity, samples);
      }
    }
  }

  // ----- The monitor's loop -----

  datatype Command<K, V> = Tell(sample: Sample<K, V>) | Feed(sample: Sample<K, V>) | AskSnapshot | Ping

  /** What a monitor's loop does that others can see, in order. */
  datatype Effect<K, V> = Published(update: Update<K, V>) | Acknowledged | Snapped(snapshot: Monitor<K, V>) | Ponged

  function Publish<K, V>(updates: seq<Update<K, V>>): seq<Effect<K, V>> {
    seq(|updates|, i requires 0 <= i < |updates| => Published(updates[i]))
  }

  function Served<K(==), V>(m: Monitor<K, V>, c: Command<K, V>): (Monitor<K, V>, seq<Effect<K, V>>) {
    match c
    case Tell(s) => (Ingested(m, s), Publish(UpdateOf(m, s)))
    case Feed(s) => (Ingested(m, s), Publish(UpdateOf(m, s)) + [Acknowledged])
    case AskSnapshot => (m, [Snapped(m)])
    case Ping => (m, [Ponged])
  }

  function ServedAll<K(==), V>(m: Monitor<K, V>, commands: seq<Command<K, V>>): (Monitor<K, V>, seq<Effect<K, V>>) {
    if commands == [] then (m, [])
    else
      var before := ServedAll(m, commands[..|commands| - 1]);
      var now := Served(before.0, commands[|commands| - 1]);
      (now.0, before.1 + now.1)
  }

  /** The mailbox in order, until it is closed and empty. */
  method MonitorLoop<K(==), V>(monitor: SampleMonitor<K, V>, commands: seq<Command<K, V>>)
    returns (effects: seq<Effect<K, V>>)
    modifies monitor
    ensures (monitor.Abs(), effects) == ServedAll(old(monitor.Abs()), commands)
  {
    effects := [];
    for k := 0 to |commands|
      invariant (monitor.Abs(), effects) == ServedAll(old(monitor.Abs()), commands[..k])
    {
      assert commands[..k + 1][..k] == commands[..k];
      ghost var before, step := effects, Served(monitor.Abs(), commands[k]).1;
      match commands[k] {
        case Tell(s) =>
          var update := monitor.Ingest(s);
          if update.Some? {
            effects := effects + [Published(update.value)];
          }
        case Feed(s) =>
          var update := monitor.Ingest(s);
          if update.Some? {
            effects := effects + [Published(update.value)];
          }
          effects := effects + [Acknowledged];
        case AskSnapshot =>
          var snapshot := monitor.Snapshot();
          effects := effects + [Snapped(snapshot)];
        case Ping =>
          effects := effects + [Ponged];
      }
      assert effects == before + step;
    }
    assert commands[..|commands|] == commands;
  }

  // ----- What the loop's effects say -----

  /** The samples a command carries. */
  function Carried<K, V>(c: Command<K, V>): seq<Sample<K, V>> {
    match c
    case Tell(s) => [s]
    case Feed(s) => [s]
    case _ => []
  }

  function AllCarried<K, V>(commands: seq<Command<K, V>>): seq<Sample<K, V>> {
    if commands == [] then [] else AllCarried(commands[..|commands| - 1]) + Carried(commands[|commands| - 1])
  }

  /** The updates of the samples under a key, in order. */
  function UpdatesUnder<K(==), V>(key: K, samples: seq<Sample<K, V>>): seq<Update<K, V>> {
    if samples == [] then []
    else
      var init, last := UpdatesUnder(key, samples[..|samples| - 1]), samples[|samples| - 1];
      if last.key == key then init + [Update(key, last.view)] else init
  }

  function PublishedIn<K, V>(effects: seq<Effect<K, V>>): seq<Update<K, V>> {
    if effects == [] then []
    else
      var init, last := PublishedIn(effects[..|effects| - 1]), effects[|effects| - 1];
      if last.Published? then init + [last.update] else init
  }

  /** The replies among the effects, and the commands that ask for one. */
  function Replies<K, V>(effects: seq<Effect<K, V>>): nat {
    if effects == [] then 0
    else Replies(effects[..|effects| - 1]) + if effects[|effects| - 1].Published? then 0 else 1
  }

  function Asking<K, V>(commands: seq<Command<K, V>>): nat {
    if commands == [] then 0
    else Asking(commands[..|commands| - 1]) + if commands[|commands| - 1].Tell? then 0 else 1
  }

  /** A reply answers its command: an acknowledgement a feed, a snapshot of the monitor a question,
      a pong a ping. */
  predicate Answers<K(==), V(==)>(c: Command<K, V>, m: Monitor<K, V>, reply: Effect<K, V>) {
    match c
    case Tell(_) => false
    case Feed(_) => reply == Acknowledged
    case AskSnapshot => reply == Snapped(m)
    case Ping => reply == Ponged
  }

  lemma OneMoreEffect<K, V>(effects: seq<Effect<K, V>>, e: Effect<K, V>)
    ensures PublishedIn(effects + [e]) == PublishedIn(effects) + if e.Published? then [e.update] else []
    ensures Replies(effects + [e]) == Replies(effects) + if e.Published? then 0 else 1
  {
    assert (effects + [e])[..|effects|] == effects;
  }

  lemma OneMoreSample<K, V>(key: K, samples: seq<Sample<K, V>>, s: Sample<K, V>)
    ensures UpdatesUnder(key, samples + [s]) ==
            UpdatesUnder(key, samples) + if s.key == key then [Update(key, s.view)] else []
  {
    assert (samples + [s])[..|samples|] == samples;
  }

  lemma OneMoreCommand<K, V>(m: Monitor<K, V>, commands: seq<Command<K, V>>, c: Command<K, V>)
    ensures AllCarried(commands + [c]) == AllCarried(commands) + Carried(c)
    ensures Asking(commands + [c]) == Asking(commands) + if c.Tell? then 0 else 1
    ensures ServedAll(m, commands + [c]) ==
            (Served(ServedAll(m, commands).0, c).0, ServedAll(m, commands).1 + Served(ServedAll(m, commands).0, c).1)
  {
    hide Served;
    assert (commands + [c])[..|commands|] == commands;
  }

  /** The monitor after its commands. */
  lemma {:induction false} ServedIngests<K, V>(m: Monitor<K, V>, commands: seq<Command<K, V>>)
    ensures ServedAll(m, commands).0 == IngestedAll(m, AllCarried(commands))
    decreases |commands|
  {
    if commands == [] {
      NoCommand(m);
    } else {
      hide ServedAll, AllCarried, IngestedAll;
      var init, last := commands[..|commands| - 1], commands[|commands| - 1];
      ServedIngests(m, init);
      assert init + [last] == commands;
      CommandIngests(m, init, last);
    }
  }

  lemma CommandIngests<K, V>(m: Monitor<K, V>, init: seq<Command<K, V>>, last: Command<K, V>)
    requires ServedAll(m, init).0 == IngestedAll(m, AllCarried(init))
    ensures ServedAll(m, init + [last]).0 == IngestedAll(m, AllCarried(init + [last]))
  {
    hide Served, ServedAll, AllCarried, Carried, Ingested, IngestedAll;
    OneMoreCommand(m, init, last);
    OneIngested(ServedAll(m, init).0, last);
    var before, now := AllCarried(init), Carried(last);
    CarriedIsOne(last);
    if now == [] {
      assert before + now == before;
    } else {
      IngestOneMore(m, before, now[0]);
      assert now == [now[0]];
    }
  }

  lemma CarriedIsOne<K, V>(c: Command<K, V>)
    ensures |Carried(c)| <= 1
  {
  }

  lemma NoCommand<K, V>(m: Monitor<K, V>)
    ensures ServedAll(m, []).0 == IngestedAll(m, AllCarried([]))
  {
  }

  lemma OneIngested<K, V>(m: Monitor<K, V>, c: Command<K, V>)
    ensures Served(m, c).0 == if Carried(c) == [] then m else Ingested(m, Carried(c)[0])
  {
    hide Ingested;
  }

  /** What one command does: at most one update, then at most one reply, which answers it. */
  lemma ServedEffects<K, V>(m: Monitor<K, V>, samples: seq<Sample<K, V>>, c: Command<K, V>)
    ensures var now := Served(IngestedAll(m, samples), c).1;
            var news := if Carried(c) != [] && Carried(c)[0].key == m.key then
                          [Published(Update(m.key, Carried(c)[0].view))]
                        else [];
            if c.Tell? then now == news
            else |now| == |news| + 1 && now[..|news|] == news && Answers(c, IngestedAll(m, samples), now[|news|])
  {
    hide Ingested, IngestedAll;
    KeyKept(m, samples);
    if c.Feed? {
      var news := Publish(UpdateOf(IngestedAll(m, samples), c.sample));
      assert (news + [Acknowledged])[..|news|] == news;
    }
  }

  /** The order the monitor's clients rely on, for every command sequence: the published updates are
      those of all accepted samples carried, in order; there is one reply per command that asks for
      one, in command order, each answering its command, and before it exactly the updates of the
      commands up to and including its own are out. */
  lemma {:induction false} RepliesFollowUpdates<K(!new), V(!new)>(m: Monitor<K, V>, commands: seq<Command<K, V>>)
    ensures var effects := ServedAll(m, commands).1;
            PublishedIn(effects) == UpdatesUnder(m.key, AllCarried(commands)) && Replies(effects) == Asking(commands) &&
            forall j :: 0 <= j < |effects| && !effects[j].Published? ==> IsReply(m, commands, effects, j)
    decreases |commands|
  {
    hide Served, Carried, IngestedAll;
    if commands != [] {
      var init, last := commands[..|commands| - 1], commands[|commands| - 1];
      assert init + [last] == commands;
      RepliesFollowUpdates(m, init);
      OneMoreCommand(m, init, last);
      ServedIngests(m, init);
      ServedEffects(m, AllCarried(init), last);
      CommandFollows(m, init, last, ServedAll(m, init).1, Served(ServedAll(m, init).0, last).1);
    }
  }

  /** Effect `j` replies to the command before which as many asked as effects before it replied. */
  ghost predicate IsReply<K(!new), V(!new)>(m: Monitor<K, V>, commands: seq<Command<K, V>>, effects: seq<Effect<K, V>>,
                                            j: nat)
    requires j < |effects|
  {
    exists i :: 0 <= i < |commands| && RepliesTo(m, commands, effects, j, i)
  }

  ghost predicate RepliesTo<K, V>(m: Monitor<K, V>, commands: seq<Command<K, V>>, effects: seq<Effect<K, V>>, j: nat,
                                  i: nat)
    requires j < |effects| && i < |commands|
  {
    Asking(commands[..i]) == Replies(effects[..j]) &&
    Answers(commands[i], IngestedAll(m, AllCarried(commands[..i])), effects[j]) &&
    PublishedIn(effects[..j]) == UpdatesUnder(m.key, AllCarried(commands[..i + 1]))
  }

  lemma StillReplies<K(!new), V(!new)>(m: Monitor<K, V>, init: seq<Command<K, V>>, last: Command<K, V>,
                                       before: seq<Effect<K, V>>, now: seq<Effect<K, V>>, j: nat)
    requires j < |before| && IsReply(m, init, before, j)
    ensures IsReply(m, init + [last], before + now, j)
  {
    hide PublishedIn, Replies, UpdatesUnder, Asking, AllCarried, Answers, IngestedAll;
    var i: nat :| 0 <= i < |init| && RepliesTo(m, init, before, j, i);
    assert (init + [last])[..i] == init[..i] && (init + [last])[..i + 1] == init[..i + 1];
    assert (before + now)[..j] == before[..j];
    assert RepliesTo(m, init + [last], before + now, j, i);
  }

  lemma CommandFollows<K(!new), V(!new)>(m: Monitor<K, V>, init: seq<Command<K, V>>, last: Command<K, V>,
                                         before: seq<Effect<K, V>>, now: seq<Effect<K, V>>)
    requires PublishedIn(before) == UpdatesUnder(m.key, AllCarried(init)) && Replies(before) == Asking(init)
    requires forall j :: 0 <= j < |before| && !before[j].Published? ==> IsReply(m, init, before, j)
    requires var news := if Carried(last) != [] && Carried(last)[0].key == m.key then
                           [Published(Update(m.key, Carried(last)[0].view))]
                         else [];
             if last.Tell? then now == news
             else |now| == |news| + 1 && now[..|news|] == news &&
                  Answers(last, IngestedAll(m, AllCarried(init)), now[|news|])
    ensures var commands, effects := init + [last], before + now;
            PublishedIn(effects) == UpdatesUnder(m.key, AllCarried(commands)) && Replies(effects) == Asking(commands) &&
            forall j :: 0 <= j < |effects| && !effects[j].Published? ==> IsReply(m, commands, effects, j)
  {
    hide IngestedAll, PublishedIn, Replies, UpdatesUnder, Asking, AllCarried;
    var commands, effects := init + [last], before + now;
    OneMoreCommand(m, init, last);
    var news := if Carried(last) != [] && Carried(last)[0].key == m.key then
                  [Published(Update(m.key, Carried(last)[0].view))]
                else [];
    var out := before + news;
    if news != [] {
      OneMoreEffect(before, news[0]);
      OneMoreSample(m.key, AllCarried(init), Carried(last)[0]);
    } else {
      assert out == before;
      if Carried(last) != [] {
        OneMoreSample(m.key, AllCarried(init), Carried(last)[0]);
      } else {
        assert AllCarried(init) + Carried(last) == AllCarried(init);
      }
    }
    if last.Tell? {
      assert effects == out;
    } else {
      assert effects == out + [now[|news|]];
      OneMoreEffect(out, now[|news|]);
      assert effects[..|out|] == out && commands[..|init|] == init && commands[..|init| + 1] == commands;
      assert RepliesTo(m, commands, effects, |out|, |init|);
    }
    forall j | 0 <= j < |effects| && !effects[j].Published? ensures IsReply(m, commands, effects, j) {
      if j < |before| {
        StillReplies(m, init, last, before, now, j);
      }
    }
  }

  // ----- The pump, the monitors' tasks, and everyone else -----

  /** The pump is drawing, or its feed to a monitor is awaited or acknowledged; or it has ended:
      exhausted, cancelled (with a drawn sample lost while pacing), or failed (at a feed, or at
      the source). */
  datatype Pump = Drawing | Awaiting(monitor: nat) | Acked(monitor: nat)
                | Exhausted | Cancelled(lost: bool) | Failed(unfed: bool)

  /** A command in a mailbox; `own` ones are the pump's. */
  datatype Letter<K, V> = Letter(command: Command<K, V>, own: bool)

  /** Whose feed a task has ingested and published but not yet acknowledged. */
  datatype Owed = Nobody | Owed(own: bool)

  /** A sample a task has ingested, and an update it has put on the bus. */
  datatype Taken<K, V> = Taken(sample: Sample<K, V>, own: bool)
  datatype Post<K, V> = Post(update: Update<K, V>, monitor: nat, own: bool)

  /** A monitor in its task, with the mailbox, the acknowledgement owed, the samples it was given,
      and the commands it took with what they did. */
  datatype MonitorTask<K, V> = MonitorTask(
    monitor: Monitor<K, V>, box: seq<Letter<K, V>>, owed: Owed, stopped: bool, taken: seq<Taken<K, V>>,
    done: seq<Command<K, V>>, effects: seq<Effect<K, V>>)

  datatype World<K, V> = World(
    tasks: seq<MonitorTask<K, V>>, bus: seq<Post<K, V>>,
    source: seq<Sample<K, V>>, drawn: seq<Sample<K, V>>, pump: Pump, fed: nat, dropped: nat)

  /** The pump draws; a task takes its next command, ingesting and publishing what it carries; a
      task acknowledges a feed; the pump resumes after an acknowledgement; a task stops; another
      client sends any command; the pump is cancelled, before a draw or while pacing; the source
      fails. */
  datatype Event<K, V> = Draw | Take(monitor: nat) | Acknowledge(monitor: nat) | Resume | Stop(monitor: nat)
                       | Send(monitor: nat, command: Command<K, V>) | CancelPump | CancelPacing | SourceFails

  function DrawStep<K(==), V>(router: map<K, nat>, w: World<K, V>): World<K, V> {
    if !w.pump.Drawing? then w
    else if w.source == [] then w.(pump := Exhausted)
    else
      var s := w.source[0];
      var after := w.(source := w.source[1..], drawn := w.drawn + [s]);
      if !HasMonitor(router, |w.tasks|, s) then after.(dropped := w.dropped + 1)
      else
        var i := router[s.key];
        var t := w.tasks[i];
        if t.stopped then after.(pump := Failed(true))
        else after.(tasks := w.tasks[i := t.(box := t.box + [Letter(Feed(s), true)])], pump := Awaiting(i))
  }

  function Posted<K(==), V>(m: Monitor<K, V>, i: nat, s: Sample<K, V>, own: bool): seq<Post<K, V>> {
    if UpdateOf(m, s) == [] then [] else [Post(UpdateOf(m, s)[0], i, own)]
  }

  /** What taking a command does at once: all but a feed's acknowledgement. */
  function AtOnce<K(==), V>(m: Monitor<K, V>, c: Command<K, V>): seq<Effect<K, V>> {
    match c
    case Tell(s) => Publish(UpdateOf(m, s))
    case Feed(s) => Publish(UpdateOf(m, s))
    case AskSnapshot => [Snapped(m)]
    case Ping => [Ponged]
  }

  /** A task between two commands takes the next one. */
  function TakeStep<K(==), V>(w: World<K, V>, i: nat): World<K, V> {
    if i >= |w.tasks| || w.tasks[i].stopped || w.tasks[i].owed.Owed? || w.tasks[i].box == [] then w
    else
      var t, letter := w.tasks[i], w.tasks[i].box[0];
      var c := letter.command;
      var next := t.(monitor := Served(t.monitor, c).0, box := t.box[1..],
                     owed := if c.Feed? then Owed(letter.own) else Nobody,
                     taken := if Carried(c) == [] then t.taken else t.taken + [Taken(Carried(c)[0], letter.own)],
                     done := t.done + [c],
                     effects := t.effects + AtOnce(t.monitor, c));
      w.(tasks := w.tasks[i := next],
         bus := if Carried(c) == [] then w.bus else w.bus + Posted(t.monitor, i, Carried(c)[0], letter.own))
  }

  function AcknowledgeStep<K(==), V>(w: World<K, V>, i: nat): World<K, V> {
    if i >= |w.tasks| || w.tasks[i].owed.Nobody? then w
    else
      w.(tasks := w.tasks[i := w.tasks[i].(owed := Nobody, effects := w.tasks[i].effects + [Acknowledged])],
         pump := if w.tasks[i].owed.own && w.pump == Awaiting(i) then Acked(i) else w.pump)
  }

  /** A task sees its token between two commands; its mailbox goes with every reply it owes. */
  function StopStep<K(==), V>(w: World<K, V>, i: nat): World<K, V> {
    if i >= |w.tasks| || w.tasks[i].owed.Owed? then w
    else
      w.(tasks := w.tasks[i := w.tasks[i].(stopped := true, box := [])],
         pump := if w.pump == Awaiting(i) then Failed(true) else w.pump)
  }

  function SendStep<K(==), V>(w: World<K, V>, i: nat, c: Command<K, V>): World<K, V> {
    if i >= |w.tasks| || w.tasks[i].stopped then w
    else w.(tasks := w.tasks[i := w.tasks[i].(box := w.tasks[i].box + [Letter(c, false)])])
  }

  function Step<K(==), V>(router: map<K, nat>, w: World<K, V>, e: Event<K, V>): World<K, V> {
    match e
    case Draw => DrawStep(router, w)
    case Take(i) => TakeStep(w, i)
    case Acknowledge(i) => AcknowledgeStep(w, i)
    case Resume => if w.pump.Acked? then w.(pump := Drawing, fed := w.fed + 1) else w
    case Stop(i) => StopStep(w, i)
    case Send(i, c) => SendStep(w, i, c)
    case CancelPump => if w.pump.Drawing? then w.(pump := Cancelled(false)) else w
    case CancelPacing =>
      if !w.pump.Drawing? || w.source == [] then w
      else w.(source := w.source[1..], drawn := w.drawn + [w.source[0]], pump := Cancelled(true))
    case SourceFails => if w.pump.Drawing? then w.(pump := Failed(false)) else w
  }

  function Run<K(==), V>(router: map<K, nat>, w: World<K, V>, events: seq<Event<K, V>>): World<K, V> {
    if events == [] then w else Step(router, Run(router, w, events[..|events| - 1]), events[|events| - 1])
  }

  // ----- What the pump's samples come to -----

  /** The samples the router sends to monitor `i`, in order. */
  function RoutedTo<K(==), V>(router: map<K, nat>, samples: seq<Sample<K, V>>, i: nat): seq<Sample<K, V>> {
    if samples == [] then []
    else
      var init, last := RoutedTo(router, samples[..|samples| - 1], i), samples[|samples| - 1];
      if last.key in router && router[last.key] == i then init + [last] else init
  }

  /** The router sends this sample to one of the `n` monitors. */
  predicate HasMonitor<K(==), V>(router: map<K, nat>, n: nat, s: Sample<K, V>) {
    s.key in router && router[s.key] < n
  }

  function FedOf<K(==), V>(router: map<K, nat>, n: nat, samples: seq<Sample<K, V>>): nat {
    if samples == [] then 0
    else FedOf(router, n, samples[..|samples| - 1]) + if HasMonitor(router, n, samples[|samples| - 1]) then 1 else 0
  }

  /** The updates of the samples whose monitor is bound to their own key, in source order. */
  function Updates<K(==), V>(router: map<K, nat>, keys: seq<K>, samples: seq<Sample<K, V>>): seq<Update<K, V>> {
    if samples == [] then []
    else
      var init, last := Updates(router, keys, samples[..|samples| - 1]), samples[|samples| - 1];
      if HasMonitor(router, |keys|, last) && keys[router[last.key]] == last.key then
        init + [Update(last.key, last.view)]
      else
        init
  }

  /** The drawn samples the pump has counted: all, but for one whose feed is not yet resumed
      from, that a cancel lost, or that a stopped monitor refused. */
  function Counted<K, V>(w: World<K, V>): seq<Sample<K, V>> {
    if w.drawn == [] then []
    else
      match w.pump
      case Awaiting(_) => w.drawn[..|w.drawn| - 1]
      case Acked(_) => w.drawn[..|w.drawn| - 1]
      case Cancelled(lost) => if lost then w.drawn[..|w.drawn| - 1] else w.drawn
      case Failed(unfed) => if unfed then w.drawn[..|w.drawn| - 1] else w.drawn
      case _ => w.drawn
  }

  /** The awaited feed is out: its task has taken it, and owes the acknowledgement or gave it. */
  predicate IsOut<K, V>(w: World<K, V>) {
    w.pump.Acked? || (w.pump.Awaiting? && w.pump.monitor < |w.tasks| && w.tasks[w.pump.monitor].owed == Owed(true))
  }

  /** The drawn samples that are dropped or out. */
  function Settled<K, V>(w: World<K, V>): seq<Sample<K, V>> {
    if IsOut(w) then w.drawn else Counted(w)
  }

  predicate Ended(pump: Pump) {
    !pump.Drawing? && !pump.Awaiting? && !pump.Acked?
  }

  /** The pump on its own, each feed served before the next draw: it ends when the source is
      exhausted, or at the draw that finds the token cancelled. */
  method PumpSource<K(==, !new), V(!new)>(source: seq<Sample<K, V>>, router: map<K, nat>,
                                          monitors: seq<SampleMonitor<K, V>>, cancelledAt: Option<nat>)
    returns (fed: nat, dropped: nat, bus: seq<Update<K, V>>)
    requires forall i, j :: 0 <= i < j < |monitors| ==> monitors[i] != monitors[j]
    requires forall k :: k in router ==> router[k] < |monitors|
    modifies monitors
    ensures var drawn := source[..Draws(|source|, cancelledAt)];
            fed + dropped == |drawn| && fed == FedOf(router, |monitors|, drawn) &&
            bus == Updates(router, MonitorKeys(monitors), drawn) &&
            forall i :: 0 <= i < |monitors| ==>
              monitors[i].Abs() == IngestedAll(old(monitors[i].Abs()), RoutedTo(router, drawn, i))
  {
    hide IngestedAll, Ingested;
    fed, dropped, bus := 0, 0, [];
    NothingDrawn<K, V>();
    var k := 0;
    while k < Draws(|source|, cancelledAt)
      invariant k <= Draws(|source|, cancelledAt)
      invariant fed + dropped == k && fed == FedOf(router, |monitors|, source[..k])
      invariant bus == Updates(router, MonitorKeys(monitors), source[..k])
      invariant forall i :: 0 <= i < |monitors| ==>
                  monitors[i].Abs() == IngestedAll(old(monitors[i].Abs()), RoutedTo(router, source[..k], i))
    {
      var s := source[k];
      assert source[..k + 1][..k] == source[..k];
      if s.key in router {
        var i := router[s.key];
        IngestOneMore(old(monitors[i].Abs()), RoutedTo(router, source[..k], i), s);
        var update := monitors[i].Ingest(s);
        if update.Some? {
          bus := bus + [update.value];
        }
        fed := fed + 1;
      } else {
        dropped := dropped + 1;
      }
      k := k + 1;
    }
  }

  lemma NothingDrawn<K(!new), V(!new)>()
    ensures forall m: Monitor<K, V> :: IngestedAll(m, []) == m
  {
  }

  /** How many samples a pump draws. */
  function Draws(available: nat, cancelledAt: Option<nat>): (n: nat)
    ensures n <= available
  {
    if cancelledAt.Some? && cancelledAt.value < available then cancelledAt.value else available
  }

  function MonitorKeys<K, V>(monitors: seq<SampleMonitor<K, V>>): (keys: seq<K>)
    ensures |keys| == |monitors| && forall i :: 0 <= i < |keys| ==> keys[i] == monitors[i].key
  {
    seq(|monitors|, i requires 0 <= i < |monitors| => monitors[i].key)
  }

  // ----- What every interleaving keeps -----

  /** The pump's samples a mailbox still holds. */
  function OwnHeld<K, V>(box: seq<Letter<K, V>>): seq<Sample<K, V>> {
    if box == [] then [] else (if box[0].own then Carried(box[0].command) else []) + OwnHeld(box[1..])
  }

  lemma {:induction false} HeldAppend<K, V>(box: seq<Letter<K, V>>, letter: Letter<K, V>)
    ensures OwnHeld(box + [letter]) == OwnHeld(box) + if letter.own then Carried(letter.command) else []
  {
    if box == [] {
      assert [letter][1..] == [];
    } else {
      HeldAppend(box[1..], letter);
      assert (box + [letter])[1..] == box[1..] + [letter];
    }
  }

  predicate OwnAreFeeds<K, V>(box: seq<Letter<K, V>>) {
    forall k :: 0 <= k < |box| && box[k].own ==> box[k].command.Feed?
  }

  /** The samples a task took, and the pump's of them. */
  function Samples<K, V>(taken: seq<Taken<K, V>>): seq<Sample<K, V>> {
    if taken == [] then [] else Samples(taken[..|taken| - 1]) + [taken[|taken| - 1].sample]
  }

  function OwnTaken<K, V>(taken: seq<Taken<K, V>>): seq<Sample<K, V>> {
    if taken == [] then []
    else
      var init, last := OwnTaken(taken[..|taken| - 1]), taken[|taken| - 1];
      if last.own then init + [last.sample] else init
  }

  /** What the bus carries of the pump's samples, and of monitor `i`'s. */
  function OwnPosts<K, V>(bus: seq<Post<K, V>>): seq<Update<K, V>> {
    if bus == [] then []
    else
      var init, last := OwnPosts(bus[..|bus| - 1]), bus[|bus| - 1];
      if last.own then init + [last.update] else init
  }

  function PostsOf<K, V>(bus: seq<Post<K, V>>, i: nat): seq<Update<K, V>> {
    if bus == [] then []
    else
      var init, last := PostsOf(bus[..|bus| - 1], i), bus[|bus| - 1];
      if last.monitor == i then init + [last.update] else init
  }

  /** The last drawn sample waits in the mailbox of monitor `i`. */
  predicate Waits<K, V>(w: World<K, V>, i: nat) {
    w.pump == Awaiting(i) && !IsOut(w)
  }

  /** The pump feeds one sample at a time: the mailbox of the monitor it awaits holds it, until
      that task has taken it and owes its acknowledgement; no other holds or owes one. */
  ghost predicate Protocol<K, V>(router: map<K, nat>, source: seq<Sample<K, V>>, w: World<K, V>) {
    w.drawn + w.source == source &&
    (forall k :: k in router ==> router[k] < |w.tasks|) &&
    (w.pump.Awaiting? || w.pump.Acked? || w.pump == Cancelled(true) || w.pump == Failed(true) ==> w.drawn != []) &&
    (w.pump.Awaiting? || w.pump.Acked? ==>
       var last := w.drawn[|w.drawn| - 1];
       last.key in router && router[last.key] == w.pump.monitor) &&
    (w.pump.Exhausted? ==> w.source == []) &&
    forall i :: 0 <= i < |w.tasks| ==> TaskKeeps(w, i)
  }

  ghost predicate TaskKeeps<K, V>(w: World<K, V>, i: nat)
    requires i < |w.tasks|
  {
    var t := w.tasks[i];
    OwnAreFeeds(t.box) &&
    (w.pump == Awaiting(i) ==> w.drawn != [] && !t.stopped) &&
    OwnHeld(t.box) == (if Waits(w, i) then [w.drawn[|w.drawn| - 1]] else []) &&
    (t.owed == Owed(true) ==> w.pump == Awaiting(i)) &&
    (t.stopped ==> t.owed.Nobody? && t.box == [])
  }

  function Keys<K, V>(monitors: seq<Monitor<K, V>>): (keys: seq<K>)
    ensures |keys| == |monitors| && forall i :: 0 <= i < |keys| ==> keys[i] == monitors[i].key
  {
    seq(|monitors|, i requires 0 <= i < |monitors| => monitors[i].key)
  }

  /** A task's books: its monitor ingested all it took and the bus carries its updates, in order;
      of the settled samples it took those routed to it. */
  ghost predicate TaskBooked<K(!new), V(!new)>(router: map<K, nat>, m: Monitor<K, V>, settled: seq<Sample<K, V>>,
                                               t: MonitorTask<K, V>, bus: seq<Post<K, V>>, i: nat) {
    t.monitor == IngestedAll(m, Samples(t.taken)) &&
    PostsOf(bus, i) == UpdatesUnder(m.key, Samples(t.taken)) &&
    OwnTaken(t.taken) == RoutedTo(router, settled, i)
  }

  ghost predicate Booked<K(!new), V(!new)>(router: map<K, nat>, start: seq<Monitor<K, V>>, settled: seq<Sample<K, V>>,
                                           tasks: seq<MonitorTask<K, V>>, bus: seq<Post<K, V>>) {
    |tasks| == |start| &&
    (forall i :: 0 <= i < |start| ==> TaskBooked(router, start[i], settled, tasks[i], bus, i)) &&
    OwnPosts(bus) == Updates(router, Keys(start), settled)
  }

  ghost predicate Tallied<K, V>(router: map<K, nat>, n: nat, counted: seq<Sample<K, V>>, fed: nat, dropped: nat) {
    fed == FedOf(router, n, counted) && fed + dropped == |counted|
  }

  ghost predicate Kept<K(!new), V(!new)>(router: map<K, nat>, start: seq<Monitor<K, V>>, source: seq<Sample<K, V>>,
                                         w: World<K, V>) {
    Protocol(router, source, w) &&
    Booked(router, start, Settled(w), w.tasks, w.bus) &&
    Tallied(router, |start|, Counted(w), w.fed, w.dropped)
  }

  lemma {:induction false} KeyKept<K, V>(m: Monitor<K, V>, samples: seq<Sample<K, V>>)
    ensures IngestedAll(m, samples).key == m.key
    decreases |samples|
  {
    if samples != [] {
      KeyKept(m, samples[..|samples| - 1]);
    }
  }

  lemma IngestOneMore<K, V>(m: Monitor<K, V>, samples: seq<Sample<K, V>>, s: Sample<K, V>)
    ensures IngestedAll(m, samples + [s]) == Ingested(IngestedAll(m, samples), s)
  {
    assert (samples + [s])[..|samples|] == samples;
  }

  /** One more sample: who gets it, whether it is fed, and its update. */
  lemma SettleOneMore<K, V>(router: map<K, nat>, keys: seq<K>, settled: seq<Sample<K, V>>, s: Sample<K, V>, i: nat)
    ensures RoutedTo(router, settled + [s], i) ==
            RoutedTo(router, settled, i) + if s.key in router && router[s.key] == i then [s] else []
    ensures FedOf(router, |keys|, settled + [s]) ==
            FedOf(router, |keys|, settled) + if HasMonitor(router, |keys|, s) then 1 else 0
    ensures Updates(router, keys, settled + [s]) ==
            Updates(router, keys, settled) +
            if HasMonitor(router, |keys|, s) && keys[router[s.key]] == s.key then [Update(s.key, s.view)] else []
  {
    assert (settled + [s])[..|settled|] == settled;
  }

  /** One more sample taken by the monitor `m` in task `i`, and its update on the bus. */
  lemma TakeOneMore<K, V>(m: Monitor<K, V>, taken: seq<Taken<K, V>>, bus: seq<Post<K, V>>, s: Sample<K, V>,
                          own: bool, i: nat, j: nat)
    ensures Samples(taken + [Taken(s, own)]) == Samples(taken) + [s]
    ensures OwnTaken(taken + [Taken(s, own)]) == OwnTaken(taken) + if own then [s] else []
    ensures UpdatesUnder(m.key, Samples(taken) + [s]) ==
            UpdatesUnder(m.key, Samples(taken)) + if s.key == m.key then [Update(m.key, s.view)] else []
    ensures OwnPosts(bus + Posted(m, i, s, own)) ==
            OwnPosts(bus) + if own && s.key == m.key then [Update(m.key, s.view)] else []
    ensures PostsOf(bus + Posted(m, i, s, own), j) ==
            PostsOf(bus, j) + if i == j && s.key == m.key then [Update(m.key, s.view)] else []
  {
    assert (taken + [Taken(s, own)])[..|taken|] == taken;
    assert (Samples(taken) + [s])[..|Samples(taken)|] == Samples(taken);
    if s.key == m.key {
      assert (bus + Posted(m, i, s, own))[..|bus|] == bus;
    } else {
      assert bus + Posted(m, i, s, own) == bus;
    }
  }

  lemma BookTaken<K(!new), V(!new)>(router: map<K, nat>, start: seq<Monitor<K, V>>, settled: seq<Sample<K, V>>,
                                    tasks: seq<MonitorTask<K, V>>, bus: seq<Post<K, V>>,
                                    i: nat, t: MonitorTask<K, V>, s: Sample<K, V>, own: bool)
    requires Booked(router, start, settled, tasks, bus) && i < |start|
    requires own ==> s.key in router && router[s.key] == i
    requires t.monitor == Ingested(tasks[i].monitor, s) && t.taken == tasks[i].taken + [Taken(s, own)]
    ensures Booked(router, start, if own then settled + [s] else settled, tasks[i := t],
                   bus + Posted(tasks[i].monitor, i, s, own))
  {
    hide IngestedAll, Ingested, Samples, OwnTaken, UpdatesUnder, OwnPosts, PostsOf, RoutedTo, Updates, FedOf, Posted;
    var m, taken := tasks[i].monitor, tasks[i].taken;
    KeyKept(start[i], Samples(taken));
    IngestOneMore(start[i], Samples(taken), s);
    var after := if own then settled + [s] else settled;
    forall j | 0 <= j < |start|
      ensures TaskBooked(router, start[j], after, tasks[i := t][j], bus + Posted(m, i, s, own), j)
    {
      TakeOneMore(m, taken, bus, s, own, i, j);
      SettleOneMore(router, Keys(start), settled, s, j);
      assert TaskBooked(router, start[j], settled, tasks[j], bus, j);
    }
    TakeOneMore(m, taken, bus, s, own, i, i);
    SettleOneMore(router, Keys(start), settled, s, i);
  }

  /** A change of mailboxes, debts and stops leaves the books alone. */
  lemma BookedAlike<K(!new), V(!new)>(router: map<K, nat>, start: seq<Monitor<K, V>>, settled: seq<Sample<K, V>>,
                                      tasks: seq<MonitorTask<K, V>>, bus: seq<Post<K, V>>, i: nat, t: MonitorTask<K, V>)
    requires Booked(router, start, settled, tasks, bus) && i < |tasks|
    requires t.monitor == tasks[i].monitor && t.taken == tasks[i].taken
    ensures Booked(router, start, settled, tasks[i := t], bus)
  {
    hide IngestedAll, Samples, OwnTaken, UpdatesUnder, OwnPosts, PostsOf, RoutedTo, Updates;
  }

  lemma BookDropped<K(!new), V(!new)>(router: map<K, nat>, start: seq<Monitor<K, V>>, settled: seq<Sample<K, V>>,
                                      w: World<K, V>, s: Sample<K, V>)
    requires Booked(router, start, settled, w.tasks, w.bus) && Tallied(router, |start|, settled, w.fed, w.dropped)
    requires s.key !in router
    ensures Booked(router, start, settled + [s], w.tasks, w.bus)
    ensures Tallied(router, |start|, settled + [s], w.fed, w.dropped + 1)
  {
    hide IngestedAll, Samples, OwnTaken, UpdatesUnder, OwnPosts, PostsOf, RoutedTo, Updates, FedOf;
    forall i | 0 <= i < |start| ensures TaskBooked(router, start[i], settled + [s], w.tasks[i], w.bus, i) {
      SettleOneMore(router, Keys(start), settled, s, i);
    }
    SettleOneMore(router, Keys(start), settled, s, 0);
  }

  /** Nothing of the pump's is in a mailbox or owed unless it awaits a feed. */
  lemma NotAwaiting<K, V>(w: World<K, V>, after: World<K, V>)
    requires forall i :: 0 <= i < |w.tasks| ==> TaskKeeps(w, i)
    requires after.tasks == w.tasks && !w.pump.Awaiting? && !after.pump.Awaiting?
    ensures forall i :: 0 <= i < |after.tasks| ==> TaskKeeps(after, i)
  {
    hide OwnHeld, OwnAreFeeds;
    forall i | 0 <= i < |after.tasks| ensures TaskKeeps(after, i) {
      assert TaskKeeps(w, i) && !Waits(w, i) && !Waits(after, i);
    }
  }

  lemma DrawKeeps<K(!new), V(!new)>(router: map<K, nat>, start: seq<Monitor<K, V>>, source: seq<Sample<K, V>>,
                                    w: World<K, V>)
    requires Kept(router, start, source, w)
    ensures Kept(router, start, source, DrawStep(router, w))
  {
    hide Booked, OwnHeld, OwnAreFeeds, FedOf;
    if w.pump.Drawing? && w.source != [] {
      var s := w.source[0];
      assert (w.drawn + [s]) + w.source[1..] == source;
      assert (w.drawn + [s])[..|w.drawn|] == w.drawn;
      BookedSize(router, start, w.drawn, w.tasks, w.bus);
      if s.key !in router {
        BookDropped(router, start, w.drawn, w, s);
        NotAwaiting(w, DrawStep(router, w));
      } else {
        var i := router[s.key];
        var t, letter := w.tasks[i], Letter(Feed(s), true);
        assert TaskKeeps(w, i);
        if t.stopped {
          NotAwaiting(w, DrawStep(router, w));
        } else {
          HeldAppend(t.box, letter);
          assert OwnAreFeeds(t.box + [letter]) by { StillFeeds(t.box, letter); }
          BookedAlike(router, start, w.drawn, w.tasks, w.bus, i, t.(box := t.box + [letter]));
          assert forall j :: 0 <= j < |w.tasks| && j != i ==>
            TaskKeeps(w, j) && DrawStep(router, w).tasks[j] == w.tasks[j];
        }
      }
    } else if w.pump.Drawing? {
      NotAwaiting(w, DrawStep(router, w));
    }
  }

  lemma StillFeeds<K, V>(box: seq<Letter<K, V>>, letter: Letter<K, V>)
    requires OwnAreFeeds(box) && (letter.own ==> letter.command.Feed?)
    ensures OwnAreFeeds(box + [letter])
  {
  }

  /** The next command of a mailbox: an own one is the last drawn sample, which waited there. */
  lemma NextLetter<K, V>(w: World<K, V>, i: nat)
    requires i < |w.tasks| && TaskKeeps(w, i) && w.tasks[i].box != []
    ensures var letter, rest := w.tasks[i].box[0], w.tasks[i].box[1..];
            OwnAreFeeds(rest) &&
            if letter.own then
              Waits(w, i) && w.drawn != [] && letter.command == Feed(w.drawn[|w.drawn| - 1]) && OwnHeld(rest) == []
            else OwnHeld(rest) == OwnHeld(w.tasks[i].box)
  {
    var box := w.tasks[i].box;
    var rest := box[1..];
    assert forall k :: 0 <= k < |rest| ==> rest[k] == box[k + 1];
    if box[0].own {
      assert OwnHeld(box) == [box[0].command.sample] + OwnHeld(rest);
      assert OwnHeld(box)[0] == box[0].command.sample && |OwnHeld(box)| == 1 + |OwnHeld(rest)|;
    } else {
      assert OwnHeld(box) == [] + OwnHeld(rest);
    }
  }

  /** What taking a command leaves of the protocol. */
  lemma TakeProtocol<K(!new), V(!new)>(w: World<K, V>, i: nat)
    requires i < |w.tasks| && !w.tasks[i].stopped && w.tasks[i].owed.Nobody? && w.tasks[i].box != []
    requires forall j :: 0 <= j < |w.tasks| ==> TaskKeeps(w, j)
    ensures var after := TakeStep(w, i);
            (forall j :: 0 <= j < |after.tasks| ==> TaskKeeps(after, j)) &&
            if w.tasks[i].box[0].own then IsOut(after) && !IsOut(w) else IsOut(after) == IsOut(w)
  {
    hide OwnHeld, OwnAreFeeds, Served, Posted;
    NextLetter(w, i);
    var after := TakeStep(w, i);
    forall j | 0 <= j < |after.tasks| ensures TaskKeeps(after, j) {
      assert TaskKeeps(w, j);
    }
  }

  lemma TakeKeeps<K(!new), V(!new)>(router: map<K, nat>, start: seq<Monitor<K, V>>, source: seq<Sample<K, V>>,
                                    w: World<K, V>, i: nat)
    requires Kept(router, start, source, w)
    ensures Kept(router, start, source, TakeStep(w, i))
  {
    hide Booked, TaskKeeps, FedOf, Tallied, Ingested, Posted, OwnHeld, OwnAreFeeds;
    if i < |w.tasks| && !w.tasks[i].stopped && w.tasks[i].owed.Nobody? && w.tasks[i].box != [] {
      var after, letter := TakeStep(w, i), w.tasks[i].box[0];
      NextLetter(w, i);
      TakeProtocol(w, i);
      BookedSize(router, start, Settled(w), w.tasks, w.bus);
      assert Counted(after) == Counted(w);
      if Carried(letter.command) == [] {
        BookedAlike(router, start, Settled(w), w.tasks, w.bus, i, after.tasks[i]);
      } else {
        BookTaken(router, start, Settled(w), w.tasks, w.bus, i, after.tasks[i], letter.command.sample, letter.own);
        assert letter.own ==> Settled(w) + [letter.command.sample] == w.drawn == Settled(after);
      }
    }
  }

  lemma AcknowledgeKeeps<K(!new), V(!new)>(router: map<K, nat>, start: seq<Monitor<K, V>>, source: seq<Sample<K, V>>,
                                           w: World<K, V>, i: nat)
    requires Kept(router, start, source, w)
    ensures Kept(router, start, source, AcknowledgeStep(w, i))
  {
    hide Booked, FedOf, OwnHeld, OwnAreFeeds;
    if i < |w.tasks| && w.tasks[i].owed.Owed? {
      assert TaskKeeps(w, i);
      var after := AcknowledgeStep(w, i);
      BookedAlike(router, start, Settled(w), w.tasks, w.bus, i, after.tasks[i]);
      assert forall j :: 0 <= j < |w.tasks| && j != i ==> TaskKeeps(w, j) && after.tasks[j] == w.tasks[j];
    }
  }

  lemma ResumeKeeps<K(!new), V(!new)>(router: map<K, nat>, start: seq<Monitor<K, V>>, source: seq<Sample<K, V>>,
                                      w: World<K, V>)
    requires Kept(router, start, source, w)
    ensures Kept(router, start, source, Step(router, w, Resume))
  {
    hide Booked, FedOf, RoutedTo, Updates, OwnHeld, OwnAreFeeds;
    if w.pump.Acked? {
      var last := w.drawn[|w.drawn| - 1];
      assert Counted(w) + [last] == w.drawn;
      BookedSize(router, start, Settled(w), w.tasks, w.bus);
      SettleOneMore(router, Keys(start), Counted(w), last, 0);
      NotAwaiting(w, Step(router, w, Resume));
    }
  }

  lemma BookedSize<K(!new), V(!new)>(router: map<K, nat>, start: seq<Monitor<K, V>>, settled: seq<Sample<K, V>>,
                                     tasks: seq<MonitorTask<K, V>>, bus: seq<Post<K, V>>)
    requires Booked(router, start, settled, tasks, bus)
    ensures |tasks| == |start|
  {
  }

  lemma EmptyBox<K, V>()
    ensures OwnHeld<K, V>([]) == [] && OwnAreFeeds<K, V>([])
  {
  }

  /** A task that owes nothing can stop, and a sample that waits for it is refused unpublished. */
  lemma StopProtocol<K(!new), V(!new)>(w: World<K, V>, i: nat)
    requires i < |w.tasks| && w.tasks[i].owed.Nobody? && forall j :: 0 <= j < |w.tasks| ==> TaskKeeps(w, j)
    ensures var after := StopStep(w, i);
            (forall j :: 0 <= j < |w.tasks| ==> TaskKeeps(after, j)) && Settled(after) == Settled(w) &&
            Counted(after) == Counted(w) && (w.pump == Awaiting(i) ==> w.drawn != [])
  {
    hide OwnHeld, OwnAreFeeds;
    EmptyBox<K, V>();
    assert TaskKeeps(w, i);
    forall j | 0 <= j < |w.tasks| ensures TaskKeeps(StopStep(w, i), j) {
      assert TaskKeeps(w, j);
    }
  }

  lemma StopKeeps<K(!new), V(!new)>(router: map<K, nat>, start: seq<Monitor<K, V>>, source: seq<Sample<K, V>>,
                                    w: World<K, V>, i: nat)
    requires Kept(router, start, source, w)
    ensures Kept(router, start, source, StopStep(w, i))
  {
    hide Booked, FedOf, TaskKeeps;
    if i < |w.tasks| && w.tasks[i].owed.Nobody? {
      var after := StopStep(w, i);
      StopProtocol(w, i);
      BookedAlike(router, start, Settled(w), w.tasks, w.bus, i, after.tasks[i]);
    }
  }

  lemma SendProtocol<K(!new), V(!new)>(w: World<K, V>, i: nat, c: Command<K, V>)
    requires i < |w.tasks| && !w.tasks[i].stopped && forall j :: 0 <= j < |w.tasks| ==> TaskKeeps(w, j)
    ensures forall j :: 0 <= j < |w.tasks| ==> TaskKeeps(SendStep(w, i, c), j)
  {
    hide OwnHeld, OwnAreFeeds;
    assert TaskKeeps(w, i);
    HeldAppend(w.tasks[i].box, Letter(c, false));
    StillFeeds(w.tasks[i].box, Letter(c, false));
    forall j | 0 <= j < |w.tasks| ensures TaskKeeps(SendStep(w, i, c), j) {
      assert TaskKeeps(w, j);
    }
  }

  lemma SendKeeps<K(!new), V(!new)>(router: map<K, nat>, start: seq<Monitor<K, V>>, source: seq<Sample<K, V>>,
                                    w: World<K, V>, i: nat, c: Command<K, V>)
    requires Kept(router, start, source, w)
    ensures Kept(router, start, source, SendStep(w, i, c))
  {
    hide Booked, FedOf, TaskKeeps;
    if i < |w.tasks| && !w.tasks[i].stopped {
      var after := SendStep(w, i, c);
      SendProtocol(w, i, c);
      BookedAlike(router, start, Settled(w), w.tasks, w.bus, i, after.tasks[i]);
    }
  }

  lemma CutKeeps<K(!new), V(!new)>(router: map<K, nat>, start: seq<Monitor<K, V>>, source: seq<Sample<K, V>>,
                                   w: World<K, V>, e: Event<K, V>)
    requires Kept(router, start, source, w) && (e.CancelPump? || e.CancelPacing? || e.SourceFails?)
    ensures Kept(router, start, source, Step(router, w, e))
  {
    hide Booked, FedOf, OwnHeld, OwnAreFeeds;
    if w.pump.Drawing? {
      NotAwaiting(w, Step(router, w, e));
    }
    if e.CancelPacing? && w.pump.Drawing? && w.source != [] {
      assert (w.drawn + [w.source[0]]) + w.source[1..] == source;
      assert (w.drawn + [w.source[0]])[..|w.drawn|] == w.drawn;
    }
  }

  lemma StepKeeps<K(!new), V(!new)>(router: map<K, nat>, start: seq<Monitor<K, V>>, source: seq<Sample<K, V>>,
                                    w: World<K, V>, e: Event<K, V>)
    requires Kept(router, start, source, w)
    ensures Kept(router, start, source, Step(router, w, e))
  {
    hide Kept, DrawStep, TakeStep, AcknowledgeStep, StopStep, SendStep;
    match e {
      case Draw => DrawKeeps(router, start, source, w);
      case Take(i) => TakeKeeps(router, start, source, w, i);
      case Acknowledge(i) => AcknowledgeKeeps(router, start, source, w, i);
      case Resume => ResumeKeeps(router, start, source, w);
      case Stop(i) => StopKeeps(router, start, source, w, i);
      case Send(i, c) => SendKeeps(router, start, source, w, i, c);
      case _ => CutKeeps(router, start, source, w, e);
    }
  }

  function Begin<K, V>(start: seq<Monitor<K, V>>, source: seq<Sample<K, V>>): World<K, V> {
    World(seq(|start|, i requires 0 <= i < |start| => MonitorTask(start[i], [], Nobody, false, [], [], [])),
          [], source, [], Drawing, 0, 0)
  }

  /** Every interleaving of the pump, the monitors' tasks, their stops and other clients. */
  lemma {:induction false} EveryRunKeeps<K(!new), V(!new)>(router: map<K, nat>, start: seq<Monitor<K, V>>,
                                                          source: seq<Sample<K, V>>, events: seq<Event<K, V>>)
    requires forall k :: k in router ==> router[k] < |start|
    ensures Kept(router, start, source, Run(router, Begin(start, source), events))
    decreases |events|
  {
    hide Kept, Step;
    if events == [] {
      BeginKeeps(router, start, source);
    } else {
      EveryRunKeeps(router, start, source, events[..|events| - 1]);
      StepKeeps(router, start, source, Run(router, Begin(start, source), events[..|events| - 1]), events[|events| - 1]);
    }
  }

  lemma BeginKeeps<K(!new), V(!new)>(router: map<K, nat>, start: seq<Monitor<K, V>>, source: seq<Sample<K, V>>)
    requires forall k :: k in router ==> router[k] < |start|
    ensures Kept(router, start, source, Begin(start, source))
  {
  }

  // ----- What the pump's counters say -----

  lemma UpdatesGrow<K, V>(router: map<K, nat>, keys: seq<K>, settled: seq<Sample<K, V>>, s: Sample<K, V>)
    ensures Updates(router, keys, settled) <= Updates(router, keys, settled + [s])
    ensures |Updates(router, keys, settled + [s])| <= |Updates(router, keys, settled)| + 1
  {
    hide Updates;
    SettleOneMore(router, keys, settled, s, 0);
  }

  /** At every moment of every run the counters cover all drawn samples but the one whose fate is
      open; the updates of the counted ones are on the bus, in source order, and of the pump's
      updates at most the awaited one's besides. Once the pump has ended, however it ended, there
      is none besides: a sample it did not count was never published. */
  lemma CountedIsPublished<K(!new), V(!new)>(router: map<K, nat>, start: seq<Monitor<K, V>>, source: seq<Sample<K, V>>,
                                             events: seq<Event<K, V>>)
    requires forall k :: k in router ==> router[k] < |start|
    ensures var w := Run(router, Begin(start, source), events);
            var counted := Updates(router, Keys(start), Counted(w));
            w.drawn <= source && |w.drawn| - 1 <= w.fed + w.dropped == |Counted(w)| &&
            Counted(w) <= w.drawn && w.fed == FedOf(router, |start|, Counted(w)) &&
            counted <= OwnPosts(w.bus) && |OwnPosts(w.bus)| <= |counted| + 1 &&
            (Ended(w.pump) ==> OwnPosts(w.bus) == counted)
  {
    hide Run, RoutedTo, Updates, FedOf, OwnPosts;
    EveryRunKeeps(router, start, source, events);
    var w := Run(router, Begin(start, source), events);
    if IsOut(w) {
      var last := w.drawn[|w.drawn| - 1];
      assert Counted(w) + [last] == w.drawn;
      UpdatesGrow(router, Keys(start), Counted(w), last);
    }
  }

  /** The bus does run ahead of the count: after a feed is taken, and until the pump resumes. */
  lemma PublishedBeforeCounted<K(!new), V(!new)>(key: K, capacity: nat, s: Sample<K, V>)
    requires s.key == key
    ensures var router, start := map[key := 0], [Fresh<K, V>(key, capacity)];
            var taken := Run(router, Begin(start, [s]), [Draw, Take(0)]);
            var acked := Run(router, Begin(start, [s]), [Draw, Take(0), Acknowledge(0)]);
            var resumed := Run(router, Begin(start, [s]), [Draw, Take(0), Acknowledge(0), Resume]);
            OwnPosts(taken.bus) == OwnPosts(acked.bus) == OwnPosts(resumed.bus) == [Update(key, s.view)] &&
            taken.fed == acked.fed == 0 && resumed.fed == 1
  {
    hide Run, Served;
    var router, start := map[key := 0], [Fresh<K, V>(key, capacity)];
    var w0 := Begin(start, [s]);
    RunFour(router, w0, Draw, Take(0), Acknowledge(0), Resume);
    assert w0.tasks == [MonitorTask(start[0], [], Nobody, false, [], [], [])];
    var w1, letter: Letter<K, V> := DrawStep(router, w0), Letter(Feed(s), true);
    assert w0.tasks[0].box + [letter] == [letter];
    assert w1.tasks[0] == MonitorTask(start[0], [letter], Nobody, false, [], [], []) && w1.pump == Awaiting(0);
    var w2 := TakeStep(w1, 0);
    assert w2.tasks[0].owed == Owed(true) && w2.pump == Awaiting(0) && w2.fed == 0;
    assert w2.bus == [Post(Update(key, s.view), 0, true)] && w2.bus[..0] == [];
  }

  lemma RunFour<K, V>(router: map<K, nat>, w: World<K, V>, a: Event<K, V>, b: Event<K, V>, c: Event<K, V>,
                      d: Event<K, V>)
    ensures var w2 := Step(router, Step(router, w, a), b);
            Run(router, w, [a, b]) == w2 && Run(router, w, [a, b, c]) == Step(router, w2, c) &&
            Run(router, w, [a, b, c, d]) == Step(router, Step(router, w2, c), d)
  {
    hide Step;
    assert [a, b, c, d][..3] == [a, b, c] && [a, b, c][..2] == [a, b] && [a, b][..1] == [a] && [a][..0] == [];
    assert Run(router, w, [a]) == Step(router, Run(router, w, []), a);
  }

  // ----- What the pump returns -----

  ghost predicate AllFresh<K(!new), V(!new)>(start: seq<Monitor<K, V>>) {
    forall i :: 0 <= i < |start| ==> start[i] == Fresh(start[i].key, start[i].capacity)
  }

  /** What every client's samples come to, at every moment: a monitor holds the capacity's suffix
      of the samples under its key among those its task took, the bus carries exactly their
      updates, and of the pump's samples the task took those routed to it, in source order. */
  lemma MonitorsHold<K(!new), V(!new)>(router: map<K, nat>, start: seq<Monitor<K, V>>, source: seq<Sample<K, V>>,
                                       events: seq<Event<K, V>>, i: nat)
    requires (forall k :: k in router ==> router[k] < |start|) && AllFresh(start) && i < |start|
    ensures var w, m := Run(router, Begin(start, source), events), start[i];
            |w.tasks| == |start| &&
            var accepted := OfKey(Samples(w.tasks[i].taken), m.key);
            w.tasks[i].monitor.history == Ring(accepted, m.capacity) &&
            w.tasks[i].monitor.latest == (if accepted == [] then None else Some(accepted[|accepted| - 1].view)) &&
            PostsOf(w.bus, i) == UpdatesUnder(m.key, Samples(w.tasks[i].taken)) &&
            OwnTaken(w.tasks[i].taken) == RoutedTo(router, Settled(w), i)
  {
    hide Run, IngestedAll, Ring, RoutedTo, OfKey, Settled, Samples, OwnTaken, PostsOf, UpdatesUnder, Protocol;
    EveryRunKeeps(router, start, source, events);
    var w := Run(router, Begin(start, source), events);
    assert TaskBooked(router, start[i], Settled(w), w.tasks[i], w.bus, i);
    RingHolds(start[i].key, start[i].capacity, Samples(w.tasks[i].taken));
  }

  /** A pump that exhausts its source, with every interleaving of the rest: fed and dropped
      samples are all it emitted, the bus holds their updates in source order, and each monitor
      took those routed to it, in source order. */
  lemma ExhaustedPumpDelivered<K(!new), V(!new)>(router: map<K, nat>, start: seq<Monitor<K, V>>,
                                                 source: seq<Sample<K, V>>, events: seq<Event<K, V>>)
    requires forall k :: k in router ==> router[k] < |start|
    requires Run(router, Begin(start, source), events).pump.Exhausted?
    ensures var w := Run(router, Begin(start, source), events);
            w.fed + w.dropped == |source| && w.fed == FedOf(router, |start|, source) &&
            OwnPosts(w.bus) == Updates(router, Keys(start), source) &&
            |w.tasks| == |start| &&
            forall i :: 0 <= i < |start| ==> OwnTaken(w.tasks[i].taken) == RoutedTo(router, source, i)
  {
    hide Run, IngestedAll, RoutedTo, OwnTaken, OwnPosts, Samples, UpdatesUnder, PostsOf, Updates, FedOf;
    EveryRunKeeps(router, start, source, events);
    var w := Run(router, Begin(start, source), events);
    assert w.drawn == source by {
      assert w.drawn + [] == w.drawn;
    }
    forall i | 0 <= i < |start| ensures OwnTaken(w.tasks[i].taken) == RoutedTo(router, source, i) {
      assert TaskBooked(router, start[i], Settled(w), w.tasks[i], w.bus, i);
    }
  }

  /** How a pump ends: exhausted by the draw after the source's last sample, cancelled only while
      drawing, losing a sample only while pacing one; failed by the source, or at a monitor that
      is stopped. Once ended it stays so. */
  lemma PumpEndsExactly<K(!new), V(!new)>(router: map<K, nat>, start: seq<Monitor<K, V>>, source: seq<Sample<K, V>>,
                                          events: seq<Event<K, V>>, e: Event<K, V>)
    requires forall k :: k in router ==> router[k] < |start|
    ensures var w := Run(router, Begin(start, source), events);
            var after := Run(router, Begin(start, source), events + [e]);
            (Ended(w.pump) ==> after.pump == w.pump) &&
            (after.pump.Exhausted? <==>
             w.pump.Exhausted? || (w.pump.Drawing? && e.Draw? && |w.drawn| == |source|)) &&
            (after.pump.Cancelled? <==>
             w.pump.Cancelled? || (w.pump.Drawing? && (e.CancelPump? || (e.CancelPacing? && |w.drawn| < |source|)))) &&
            (after.pump == Failed(false) <==> w.pump == Failed(false) || (w.pump.Drawing? && e.SourceFails?)) &&
            (after.pump == Cancelled(true) && w.pump.Drawing? ==> e.CancelPacing?)
  {
    hide Run, TakeStep, SendStep, Booked;
    EveryRunKeeps(router, start, source, events);
    OneMoreEvent(router, Begin(start, source), events, e);
    var w := Run(router, Begin(start, source), events);
    assert |w.drawn| + |w.source| == |source|;
    PumpTakes(w, e);
  }

  lemma OneMoreEvent<K, V>(router: map<K, nat>, w: World<K, V>, events: seq<Event<K, V>>, e: Event<K, V>)
    ensures Run(router, w, events + [e]) == Step(router, Run(router, w, events), e)
  {
    hide Step;
    assert (events + [e])[..|events|] == events;
  }

  lemma PumpTakes<K, V>(w: World<K, V>, e: Event<K, V>)
    ensures e.Take? ==> TakeStep(w, e.monitor).pump == w.pump
    ensures e.Send? ==> SendStep(w, e.monitor, e.command).pump == w.pump
  {
    hide Served, Carried;
  }

  // ----- The pump as the only sender of samples -----

  /** No other client sends a sample; they may ask and ping. */
  ghost predicate OnlyThePump<K(!new), V(!new)>(events: seq<Event<K, V>>) {
    forall k :: 0 <= k < |events| && events[k].Send? ==> Carried(events[k].command) == []
  }

  ghost predicate TaskIsOwn<K, V>(t: MonitorTask<K, V>) {
    (forall k :: 0 <= k < |t.taken| ==> t.taken[k].own) &&
    (forall k :: 0 <= k < |t.box| && Carried(t.box[k].command) != [] ==> t.box[k].own)
  }

  ghost predicate AllOwn<K(!new), V(!new)>(w: World<K, V>) {
    forall i :: 0 <= i < |w.tasks| ==> TaskIsOwn(w.tasks[i])
  }

  lemma StepKeepsOwn<K(!new), V(!new)>(router: map<K, nat>, w: World<K, V>, e: Event<K, V>)
    requires AllOwn(w) && (e.Send? ==> Carried(e.command) == [])
    ensures AllOwn(Step(router, w, e))
  {
    hide Served, Posted;
    var after := Step(router, w, e);
    forall i | 0 <= i < |after.tasks| ensures TaskIsOwn(after.tasks[i]) {
      assert TaskIsOwn(w.tasks[i]);
    }
  }

  lemma {:induction false} RunKeepsOwn<K(!new), V(!new)>(router: map<K, nat>, start: seq<Monitor<K, V>>,
                                                        source: seq<Sample<K, V>>, events: seq<Event<K, V>>)
    requires OnlyThePump(events)
    ensures AllOwn(Run(router, Begin(start, source), events))
    decreases |events|
  {
    hide AllOwn, Step;
    if events == [] {
      assert AllOwn(Begin(start, source)) by { BeginOwn(start, source); }
    } else {
      var init, last := events[..|events| - 1], events[|events| - 1];
      RunKeepsOwn(router, start, source, init);
      StepKeepsOwn(router, Run(router, Begin(start, source), init), last);
    }
  }

  lemma BeginOwn<K(!new), V(!new)>(start: seq<Monitor<K, V>>, source: seq<Sample<K, V>>)
    ensures AllOwn(Begin(start, source))
  {
  }

  lemma {:induction false} OwnAreAllTaken<K, V>(taken: seq<Taken<K, V>>)
    requires forall k :: 0 <= k < |taken| ==> taken[k].own
    ensures OwnTaken(taken) == Samples(taken)
    decreases |taken|
  {
    if taken != [] {
      OwnAreAllTaken(taken[..|taken| - 1]);
    }
  }

  /** When no other client sends samples, an exhausted pump leaves each monitor the capacity's
      suffix of the samples routed to it under its own key. */
  lemma SolePumpFills<K(!new), V(!new)>(router: map<K, nat>, start: seq<Monitor<K, V>>, source: seq<Sample<K, V>>,
                                        events: seq<Event<K, V>>, i: nat)
    requires (forall k :: k in router ==> router[k] < |start|) && AllFresh(start) && OnlyThePump(events) && i < |start|
    requires Run(router, Begin(start, source), events).pump.Exhausted?
    ensures var w := Run(router, Begin(start, source), events);
            |w.tasks| == |start| &&
            w.tasks[i].monitor.history == Ring(OfKey(RoutedTo(router, source, i), start[i].key), start[i].capacity)
  {
    hide Run, Ring, RoutedTo, OfKey, Samples, OwnTaken, OwnPosts, PostsOf, UpdatesUnder, Updates, FedOf, Settled;
    ExhaustedPumpDelivered(router, start, source, events);
    MonitorsHold(router, start, source, events, i);
    RunKeepsOwn(router, start, source, events);
    OwnAreAllTaken(Run(router, Begin(start, source), events).tasks[i].taken);
  }

  ghost predicate BoundToKeys<K(!new), V(!new)>(router: map<K, nat>, keys: seq<K>, samples: seq<Sample<K, V>>) {
    forall k :: 0 <= k < |samples| && HasMonitor(router, |keys|, samples[k]) ==>
      keys[router[samples[k].key]] == samples[k].key
  }

  lemma {:induction false} UpdatesAtMostFed<K(!new), V(!new)>(router: map<K, nat>, keys: seq<K>,
                                                             samples: seq<Sample<K, V>>)
    ensures |Updates(router, keys, samples)| <= FedOf(router, |keys|, samples)
    ensures |Updates(router, keys, samples)| == FedOf(router, |keys|, samples) <==> BoundToKeys(router, keys, samples)
    decreases |samples|
  {
    if samples != [] {
      var init, last := samples[..|samples| - 1], samples[|samples| - 1];
      UpdatesAtMostFed(router, keys, init);
      assert BoundToKeys(router, keys, samples) <==>
        BoundToKeys(router, keys, init) &&
        (HasMonitor(router, |keys|, last) ==> keys[router[last.key]] == last.key);
    }
  }

  /** However the pump ends, every sample it counts as fed was published exactly when the router
      sends each counted sample's key to a monitor bound to that key. */
  lemma ForwardedIsPublishedExactly<K(!new), V(!new)>(router: map<K, nat>, start: seq<Monitor<K, V>>,
                                                      source: seq<Sample<K, V>>, events: seq<Event<K, V>>)
    requires forall k :: k in router ==> router[k] < |start|
    requires Ended(Run(router, Begin(start, source), events).pump)
    ensures var w := Run(router, Begin(start, source), events);
            |OwnPosts(w.bus)| == w.fed <==> BoundToKeys(router, Keys(start), Counted(w))
  {
    hide Run, Updates, FedOf, BoundToKeys, Counted, OwnPosts;
    CountedIsPublished(router, start, source, events);
    UpdatesAtMostFed(router, Keys(start), Counted(Run(router, Begin(start, source), events)));
  }

  /** A monitor bound to the key the router sends it receives every sample of that key. */
  lemma {:induction false} OwnKeyIsRouted<K, V>(router: map<K, nat>, samples: seq<Sample<K, V>>, key: K)
    requires key in router
    ensures OfKey(RoutedTo(router, samples, router[key]), key) == OfKey(samples, key)
    decreases |samples|
  {
    if samples != [] {
      var init, last := samples[..|samples| - 1], samples[|samples| - 1];
      OwnKeyIsRouted(router, init, key);
      var before := RoutedTo(router, init, router[key]);
      assert (before + [last])[..|before|] == before;
    }
  }

  // ----- The tasks run the loop -----

  /** A task has done to its commands what the loop does, but for an acknowledgement it owes. */
  ghost predicate RunsLoop<K, V>(m: Monitor<K, V>, t: MonitorTask<K, V>) {
    ServedAll(m, t.done) == (t.monitor, t.effects + if t.owed.Owed? then [Acknowledged] else []) &&
    AllCarried(t.done) == Samples(t.taken)
  }

  lemma TakeRunsLoop<K, V>(m: Monitor<K, V>, t: MonitorTask<K, V>, c: Command<K, V>, next: MonitorTask<K, V>)
    requires RunsLoop(m, t) && t.owed.Nobody? && next.done == t.done + [c]
    requires next.monitor == Served(t.monitor, c).0 && next.effects == t.effects + AtOnce(t.monitor, c)
    requires next.owed.Owed? <==> c.Feed?
    requires if Carried(c) == [] then next.taken == t.taken
             else |next.taken| == |t.taken| + 1 && next.taken[..|t.taken|] == t.taken &&
                  next.taken[|t.taken|].sample == Carried(c)[0]
    ensures RunsLoop(m, next)
  {
    hide Ingested;
    OneMoreCommand(m, t.done, c);
    if Carried(c) == [] {
      assert AllCarried(t.done) + [] == AllCarried(t.done);
    } else {
      assert Samples(next.taken) == Samples(t.taken) + Carried(c);
    }
    assert t.effects + [] == t.effects;
    if c.Feed? {
      var news := Publish(UpdateOf(t.monitor, c.sample));
      assert (t.effects + news) + [Acknowledged] == t.effects + (news + [Acknowledged]);
    } else {
      assert next.effects + [] == next.effects;
    }
  }

  lemma StepRunsLoop<K(!new), V(!new)>(router: map<K, nat>, start: seq<Monitor<K, V>>, w: World<K, V>, e: Event<K, V>)
    requires |w.tasks| == |start| && forall i :: 0 <= i < |start| ==> RunsLoop(start[i], w.tasks[i])
    ensures var after := Step(router, w, e);
            |after.tasks| == |start| && forall i :: 0 <= i < |start| ==> RunsLoop(start[i], after.tasks[i])
  {
    hide ServedAll, Served, Posted, AtOnce;
    var after := Step(router, w, e);
    forall i | 0 <= i < |start| ensures RunsLoop(start[i], after.tasks[i]) {
      assert RunsLoop(start[i], w.tasks[i]);
      if e == Take(i) && after != w {
        TakeRunsLoop(start[i], w.tasks[i], w.tasks[i].box[0].command, after.tasks[i]);
      } else if e == Acknowledge(i) && w.tasks[i].owed.Owed? {
        assert after.tasks[i].effects + [] == after.tasks[i].effects;
      }
    }
  }

  /** In every interleaving every task's steps produce the loop's effects: over the commands it took
      they are the loop's, less an acknowledgement it still owes. */
  lemma {:induction false} TasksRunTheLoop<K(!new), V(!new)>(router: map<K, nat>, start: seq<Monitor<K, V>>,
                                                            source: seq<Sample<K, V>>, events: seq<Event<K, V>>)
    ensures var w := Run(router, Begin(start, source), events);
            |w.tasks| == |start| && forall i :: 0 <= i < |start| ==> RunsLoop(start[i], w.tasks[i])
    decreases |events|
  {
    hide Step, RunsLoop;
    if events == [] {
      forall i | 0 <= i < |start| ensures RunsLoop(start[i], Begin(start, source).tasks[i]) {
        NothingRun(start[i]);
      }
    } else {
      TasksRunTheLoop(router, start, source, events[..|events| - 1]);
      StepRunsLoop(router, start, Run(router, Begin(start, source), events[..|events| - 1]), events[|events| - 1]);
    }
  }

  lemma NothingRun<K, V>(m: Monitor<K, V>)
    ensures RunsLoop(m, MonitorTask(m, [], Nobody, false, [], [], []))
  {
    var none: seq<Effect<K, V>> := [];
    assert none + [] == none;
  }

  /** So in every interleaving the bus carries of each monitor what its task published, and every
      reply a task made came after the updates of the commands up to its own. */
  lemma TaskRepliesFollowUpdates<K(!new), V(!new)>(router: map<K, nat>, start: seq<Monitor<K, V>>,
                                                   source: seq<Sample<K, V>>, events: seq<Event<K, V>>, i: nat)
    requires (forall k :: k in router ==> router[k] < |start|) && i < |start|
    ensures var w := Run(router, Begin(start, source), events);
            |w.tasks| == |start| && PostsOf(w.bus, i) == PublishedIn(w.tasks[i].effects) &&
            forall j :: 0 <= j < |w.tasks[i].effects| && !w.tasks[i].effects[j].Published? ==>
              IsReply(start[i], w.tasks[i].done, w.tasks[i].effects, j)
  {
    hide Run, ServedAll, AllCarried, Samples, PostsOf, UpdatesUnder, OwnTaken, RoutedTo, IngestedAll, Protocol,
         PublishedIn, Replies;
    TasksRunTheLoop(router, start, source, events);
    EveryRunKeeps(router, start, source, events);
    var w := Run(router, Begin(start, source), events);
    var t := w.tasks[i];
    assert RunsLoop(start[i], t) && TaskBooked(router, start[i], Settled(w), t, w.bus, i);
    RepliesFollowUpdates(start[i], t.done);
    if t.owed.Owed? {
      OneMoreEffect(t.effects, Acknowledged);
      forall j | 0 <= j < |t.effects| && !t.effects[j].Published? ensures IsReply(start[i], t.done, t.effects, j) {
        ShorterEffects(start[i], t.done, t.effects, Acknowledged, j);
      }
    } else {
      assert t.effects + [] == t.effects;
    }
  }

  lemma ShorterEffects<K(!new), V(!new)>(m: Monitor<K, V>, commands: seq<Command<K, V>>, effects: seq<Effect<K, V>>,
                                         e: Effect<K, V>, j: nat)
    requires j < |effects| && IsReply(m, commands, effects + [e], j)
    ensures IsReply(m, commands, effects, j)
  {
    var i: nat :| 0 <= i < |commands| && RepliesTo(m, commands, effects + [e], j, i);
    assert (effects + [e])[..j] == effects[..j];
    assert RepliesTo(m, commands, effects, j, i);
  }
}
