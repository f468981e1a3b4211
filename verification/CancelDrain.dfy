/** A receiver read until a token is cancelled, with any number of concurrent senders: a state
    machine over sends, the channel's close, the cancel, and the reader's polls. */
module CancelDrain {
  import opened Wrappers

  /** What a poll of the reader comes to: still waiting, or an answer. */
  datatype Poll<T> = Pending | Ready(answer: Option<T>)

  class Receiver<T> {
    var buffer: seq<T>
    var closed: bool

    constructor ()
      ensures buffer == [] && !closed
    {
      buffer, closed := [], false;
    }

    method TryRecv() returns (item: Option<T>)
      modifies this`buffer
      ensures old(buffer) == [] ==> item == None && buffer == []
      ensures old(buffer) != [] ==> item == Some(old(buffer)[0]) && buffer == old(buffer)[1..]
    {
      if buffer == [] {
        return None;
      }
      item := Some(buffer[0]);
      buffer := buffer[1..];
    }

    /** Items of other threads; nobody is left to send once the channel is closed. */
    method Arrive(items: seq<T>)
      modifies this`buffer
      ensures buffer == if closed then old(buffer) else old(buffer) + items
    {
      if !closed {
        buffer := buffer + items;
      }
    }
  }

  /** The reader's step on the buffered items: its new count, its answer, and how many items it
      takes; `raced` arrive after the count and before the take. */
  datatype Taken<T> = Taken(remaining: Option<nat>, poll: Poll<T>, buffer: seq<T>)

  function TakeCounted<T>(remaining: nat, buffer: seq<T>): Taken<T> {
    if remaining == 0 then Taken(Some(0), Ready(None), buffer)
    else if buffer == [] then Taken(Some(remaining - 1), Ready(None), buffer)
    else Taken(Some(remaining - 1), Ready(Some(buffer[0])), buffer[1..])
  }

  function NextOf<T>(remaining: Option<nat>, buffer: seq<T>, closed: bool, cancelled: bool, raced: seq<T>): Taken<T> {
    var later := if closed then buffer else buffer + raced;
    if remaining.Some? then TakeCounted(remaining.value, later)
    else if cancelled then TakeCounted(|buffer|, later)
    else if later != [] then Taken(None, Ready(Some(later[0])), later[1..])
    else Taken(None, if closed then Ready(None) else Pending, later)
  }

  class Drain<T> {
    const rx: Receiver<T>
    var remaining: Option<nat>

    constructor (rx: Receiver<T>)
      ensures this.rx == rx && remaining == None
    {
      this.rx, remaining := rx, None;
    }

    /** One poll; the cancel is looked at first. */
    method Next(cancelled: bool, raced: seq<T>) returns (poll: Poll<T>)
      modifies this`remaining, rx`buffer
      ensures Taken(remaining, poll, rx.buffer) ==
              NextOf(old(remaining), old(rx.buffer), rx.closed, cancelled, raced)
    {
      if remaining.None? {
        if cancelled {
          remaining := Some(|rx.buffer|);
        } else {
          rx.Arrive(raced);
          if rx.buffer == [] && !rx.closed {
            return Pending;
          }
          var item := rx.TryRecv();
          return Ready(item);
        }
      }
      rx.Arrive(raced);
      if remaining.value == 0 {
        return Ready(None);
      }
      remaining := Some(remaining.value - 1);
      var item := rx.TryRecv();
      poll := Ready(item);
    }
  }

  // ----- Runs -----

  /** A sender sends, the last sender goes, the token is cancelled, the reader polls. */
  datatype Event<T> = Send(item: T) | Close | Cancel | Read(raced: seq<T>)

  /** The channel, the token and the reader, with all that was ever sent and answered. */
  datatype System<T> = System(sent: seq<T>, buffer: seq<T>, closed: bool, cancelled: bool,
                              remaining: Option<nat>, answers: seq<Option<T>>)

  function Start<T>(): System<T> {
    System([], [], false, false, None, [])
  }

  function Step<T>(s: System<T>, e: Event<T>): System<T> {
    match e
    case Send(x) => if s.closed then s else s.(sent := s.sent + [x], buffer := s.buffer + [x])
    case Close => s.(closed := true)
    case Cancel => s.(cancelled := true)
    case Read(raced) =>
      var t := NextOf(s.remaining, s.buffer, s.closed, s.cancelled, raced);
      s.(sent := if s.closed then s.sent else s.sent + raced,
         buffer := t.buffer,
         remaining := t.remaining,
         answers := if t.poll.Ready? then s.answers + [t.poll.answer] else s.answers)
  }

  function Run<T>(s: System<T>, events: seq<Event<T>>): System<T> {
    if events == [] then s else Step(Run(s, events[..|events| - 1]), events[|events| - 1])
  }

  /** The items among the answers. */
  function Yielded<T>(answers: seq<Option<T>>): seq<T> {
    if answers == [] then []
    else
      Yielded(answers[..|answers| - 1]) +
      if answers[|answers| - 1].Some? then [answers[|answers| - 1].value] else []
  }

  lemma YieldedStep<T>(answers: seq<Option<T>>, a: Option<T>)
    ensures Yielded(answers + [a]) == if a.Some? then Yielded(answers) + [a.value] else Yielded(answers)
  {
    assert (answers + [a])[..|answers|] == answers;
  }

  /** Nothing is lost, repeated or reordered: what was yielded, then what is buffered, is what
      was sent. A reader that counts has no more counted than buffered. */
  ghost predicate Conserved<T>(s: System<T>) {
    Yielded(s.answers) + s.buffer == s.sent &&
    (s.remaining.Some? ==> s.remaining.value <= |s.buffer|) &&
    (s.remaining.None? && None in s.answers ==> s.closed && s.buffer == [])
  }

  /** A poll takes the oldest item or none. */
  lemma PollTakesHead<T>(remaining: Option<nat>, buffer: seq<T>, closed: bool, cancelled: bool, raced: seq<T>)
    ensures var later := if closed then buffer else buffer + raced;
            var t := NextOf(remaining, buffer, closed, cancelled, raced);
            if t.poll.Ready? && t.poll.answer.Some? then later == [t.poll.answer.value] + t.buffer
            else t.buffer == later
  {
  }

  lemma SendConserves<T>(s: System<T>, x: T)
    requires Conserved(s)
    ensures Conserved(Step(s, Send(x)))
  {
    hide Yielded;
    assert Yielded(s.answers) + (s.buffer + [x]) == (Yielded(s.answers) + s.buffer) + [x];
  }

  lemma Regroup<T>(a: seq<T>, b: seq<T>, c: seq<T>)
    ensures (a + b) + c == a + (b + c)
  {
  }

  lemma ReadConserves<T>(s: System<T>, raced: seq<T>)
    requires Conserved(s)
    ensures var r := Step(s, Read(raced)); Yielded(r.answers) + r.buffer == r.sent
  {
    hide Yielded, NextOf;
    var t := NextOf(s.remaining, s.buffer, s.closed, s.cancelled, raced);
    PollTakesHead(s.remaining, s.buffer, s.closed, s.cancelled, raced);
    var before := Yielded(s.answers);
    Regroup(before, s.buffer, raced);
    if t.poll.Ready? {
      YieldedStep(s.answers, t.poll.answer);
      if t.poll.answer.Some? {
        Regroup(before, [t.poll.answer.value], t.buffer);
      }
    }
  }

  lemma StepConserves<T>(s: System<T>, e: Event<T>)
    requires Conserved(s)
    ensures Conserved(Step(s, e))
  {
    hide Yielded;
    match e {
      case Send(x) => SendConserves(s, x);
      case Read(raced) => ReadConserves(s, raced);
      case Close =>
      case Cancel =>
    }
  }

  /** Every run, whatever the senders do: the items yielded are a prefix of the items sent, in
      their order; before the cancel is observed the reader answers "none" only when the channel
      is closed and every item sent was yielded. */
  lemma {:induction false} OutputsArePrefix<T>(events: seq<Event<T>>)
    ensures var s := Run(Start(), events);
            Conserved(s) && Yielded(s.answers) <= s.sent
    ensures var s := Run(Start(), events);
            s.remaining.None? && None in s.answers ==> s.closed && Yielded(s.answers) == s.sent
    decreases |events|
  {
    hide Step;
    if events != [] {
      OutputsArePrefix(events[..|events| - 1]);
      StepConserves(Run(Start(), events[..|events| - 1]), events[|events| - 1]);
    }
  }

  function Reads<T>(events: seq<Event<T>>): nat {
    if events == [] then 0
    else Reads(events[..|events| - 1]) + if events[|events| - 1].Read? then 1 else 0
  }

  /** The answers of a counting reader: the counted items in order, then "none". */
  function Counted<T>(items: seq<T>, k: nat): (a: seq<Option<T>>)
    ensures |a| == k
  {
    seq(k, i => if 0 <= i < |items| then Some(items[i]) else None)
  }

  /** What a reader that observed the cancel before `items` keeps, after `k` more answers. */
  ghost predicate Draining<T>(s: System<T>, before: seq<Option<T>>, items: seq<T>, k: nat) {
    s.answers == before + Counted(items, k) &&
    s.remaining == Some(if k <= |items| then |items| - k else 0) &&
    (k <= |items| ==> items[k..] <= s.buffer)
  }

  lemma CountedStep<T>(items: seq<T>, k: nat)
    ensures Counted(items, k + 1) == Counted(items, k) + [if k < |items| then Some(items[k]) else None]
  {
  }

  lemma DrainingRead<T>(s: System<T>, before: seq<Option<T>>, items: seq<T>, k: nat, raced: seq<T>)
    requires Draining(s, before, items, k)
    ensures Draining(Step(s, Read(raced)), before, items, k + 1)
  {
    hide Counted;
    CountedStep(items, k);
    var later := if s.closed then s.buffer else s.buffer + raced;
    assert s.buffer <= later;
    if k < |items| {
      assert later[0] == s.buffer[0] == items[k..][0];
      assert items[k + 1..] == items[k..][1..] <= later[1..];
    }
  }

  lemma DrainingStep<T>(s: System<T>, before: seq<Option<T>>, items: seq<T>, k: nat, e: Event<T>)
    requires Draining(s, before, items, k)
    ensures Draining(Step(s, e), before, items, if e.Read? then k + 1 else k)
  {
    hide Counted;
    if e.Read? {
      DrainingRead(s, before, items, k, e.raced);
    }
  }

  lemma DrainingStarts<T>(s: System<T>, raced: seq<T>)
    requires s.remaining.None? && s.cancelled
    ensures Draining(Step(s, Read(raced)), s.answers, s.buffer, 1)
  {
  }

  lemma {:induction false} DrainingStays<T>(s: System<T>, before: seq<Option<T>>, items: seq<T>, k: nat,
                                            events: seq<Event<T>>)
    requires Draining(s, before, items, k)
    ensures Draining(Run(s, events), before, items, k + Reads(events))
    decreases |events|
  {
    hide Draining, Step;
    if events != [] {
      DrainingStays(s, before, items, k, events[..|events| - 1]);
      DrainingStep(Run(s, events[..|events| - 1]), before, items, k + Reads(events[..|events| - 1]),
                   events[|events| - 1]);
    }
  }

  /** The bounded drain: the poll that observes the cancel and all later ones answer, at once,
      the items buffered at that moment in order, and then "none" for ever, whatever is sent
      after, during or between the polls. */
  lemma DrainsWhatWasBuffered<T>(s: System<T>, raced: seq<T>, events: seq<Event<T>>)
    requires s.remaining.None? && s.cancelled
    ensures Run(Step(s, Read(raced)), events).answers == s.answers + Counted(s.buffer, 1 + Reads(events))
  {
    hide Step, Counted;
    DrainingStarts(s, raced);
    DrainingStays(Step(s, Read(raced)), s.answers, s.buffer, 1, events);
  }

  // ----- Before the cancel -----

  /** A poll that does not see the cancel answers the oldest item sent and not yet yielded, one that
      comes in during the poll included; without one it ends a closed channel and waits on an open
      one. */
  lemma PollBeforeCancel<T>(events: seq<Event<T>>, raced: seq<T>)
    requires var s := Run(Start(), events); s.remaining.None? && !s.cancelled
    ensures var s := Run(Start(), events);
            var r, n := Step(s, Read(raced)), |Yielded(s.answers)|;
            n <= |r.sent| && r.remaining.None? &&
            r.answers == s.answers + if n < |r.sent| then [Some(r.sent[n])] else if s.closed then [None] else []
  {
    hide Run, Yielded;
    OutputsArePrefix(events);
    var s := Run(Start(), events);
    var r, n := Step(s, Read(raced)), |Yielded(s.answers)|;
    var later := if s.closed then s.buffer else s.buffer + raced;
    assert r.sent == Yielded(s.answers) + later;
    assert later != [] ==> r.sent[n] == later[0];
  }

  /** A reader with enough buffered and no cancel in sight, after `k` polls. */
  ghost predicate KeepsUp<T>(s: System<T>, before: seq<Option<T>>, items: seq<T>, k: nat) {
    s.remaining.None? && !s.cancelled && s.answers == before + Counted(items, k) &&
    (k <= |items| ==> items[k..] <= s.buffer)
  }

  lemma KeepsUpStep<T>(s: System<T>, before: seq<Option<T>>, items: seq<T>, k: nat, e: Event<T>)
    requires KeepsUp(s, before, items, k) && e != Cancel && (e.Read? ==> k < |items|)
    ensures KeepsUp(Step(s, e), before, items, if e.Read? then k + 1 else k)
  {
    hide Counted;
    if e.Read? {
      CountedStep(items, k);
      var later := if s.closed then s.buffer else s.buffer + e.raced;
      assert s.buffer <= later;
      assert later[0] == s.buffer[0] == items[k..][0];
      assert items[k + 1..] == items[k..][1..] <= later[1..];
    }
  }

  /** Polls that find enough buffered yield it in order, one item each, whatever is sent besides and
      whether or not the channel is closed meanwhile. */
  lemma {:induction false} PollsYieldInTurn<T>(s: System<T>, events: seq<Event<T>>)
    requires s.remaining.None? && !s.cancelled && Cancel !in events && Reads(events) <= |s.buffer|
    ensures var r := Run(s, events);
            r.answers == s.answers + Counted(s.buffer, Reads(events)) && r.remaining.None? && !r.cancelled &&
            KeepsUp(r, s.answers, s.buffer, Reads(events))
    decreases |events|
  {
    hide Step, Counted;
    if events == [] {
      NothingCounted(s.buffer);
      assert s.buffer[0..] == s.buffer && s.answers + [] == s.answers;
    } else {
      var init := events[..|events| - 1];
      PollsYieldInTurn(s, init);
      KeepsUpStep(Run(s, init), s.answers, s.buffer, Reads(init), events[|events| - 1]);
    }
  }

  lemma NothingCounted<T>(items: seq<T>)
    ensures Counted(items, 0) == []
  {
  }
}
