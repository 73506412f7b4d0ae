/** Handing log events to a client that may fall behind (backend/logs.go,
    logSink.send). While the backlog lasts the sender blocks; after it, an event
    that finds the channel full is dropped and counted, and the count goes out as
    a notice once there is room. */
module LogOutlet {
  import opened Text

  /** How many events a client may fall behind by. */
  const LOG_BUFFER := 256

  datatype Stream = Stdout | Stderr

  newtype byte = x: int | 0 <= x < 256

  /** Notices are the controller's own lines; both kinds go out on stderr. */
  datatype Event =
    | Line(stream: Stream, text: seq<byte>)
    | TruncationNotice
    | DropNotice(count: nat)

  predicate IsNotice(e: Event) { !e.Line? }

  /** What became of each event offered, in order, and when drops were reported. */
  datatype Mark = Sent(e: Event) | Lost(e: Event) | Ended(e: Event) | Reported(count: nat)

  /** What has gone into the channel. */
  ghost function OnWire(log: seq<Mark>): seq<Event> {
    if log == [] then []
    else
      OnWire(log[..|log| - 1]) +
      match log[|log| - 1] {
        case Sent(e) => [e]
        case Reported(n) => [DropNotice(n)]
        case _ => []
      }
  }

  ghost function Offered(log: seq<Mark>): seq<Event> {
    if log == [] then []
    else
      Offered(log[..|log| - 1]) +
      match log[|log| - 1] {
        case Reported(_) => []
        case m => [m.e]
      }
  }

  /** Offered events that reached the channel. */
  ghost function SentOf(log: seq<Mark>): seq<Event> {
    if log == [] then []
    else SentOf(log[..|log| - 1]) + if log[|log| - 1].Sent? then [log[|log| - 1].e] else []
  }

  ghost function LostCount(log: seq<Mark>): nat {
    if log == [] then 0 else LostCount(log[..|log| - 1]) + if log[|log| - 1].Lost? then 1 else 0
  }

  ghost function EndedCount(log: seq<Mark>): nat {
    if log == [] then 0 else EndedCount(log[..|log| - 1]) + if log[|log| - 1].Ended? then 1 else 0
  }

  ghost function ReportedTotal(log: seq<Mark>): nat {
    if log == [] then 0 else ReportedTotal(log[..|log| - 1]) + if log[|log| - 1].Reported? then log[|log| - 1].count else 0
  }

  /** Events dropped since the last report. */
  ghost function Pending(log: seq<Mark>): nat {
    if log == [] then 0
    else
      match log[|log| - 1] {
        case Reported(_) => 0
        case Lost(_) => Pending(log[..|log| - 1]) + 1
        case _ => Pending(log[..|log| - 1])
      }
  }

  /** Every report counts exactly the drops since the one before it. */
  ghost predicate Honest(log: seq<Mark>) {
    log == [] ||
    (Honest(log[..|log| - 1]) &&
     (log[|log| - 1].Reported? ==> log[|log| - 1].count == Pending(log[..|log| - 1]) > 0))
  }

  /** Nothing is unaccounted for: every offered event was delivered, is counted
      in a report that was delivered, is still pending, or was ended by
      cancellation. */
  lemma {:induction false} DeliveryIsConserved(log: seq<Mark>)
    requires Honest(log)
    ensures |Offered(log)| == |SentOf(log)| + ReportedTotal(log) + Pending(log) + EndedCount(log)
  {
    if log != [] {
      DeliveryIsConserved(log[..|log| - 1]);
    }
  }

  /** What is delivered is what was offered, in the order offered, with gaps. */
  lemma {:induction false} DeliveredInOrder(log: seq<Mark>)
    ensures Subsequence(SentOf(log), Offered(log))
    decreases |log|
  {
    if log != [] {
      var n := |log| - 1;
      DeliveredInOrder(log[..n]);
      if log[n].Reported? {
        assert Offered(log) == Offered(log[..n]) && SentOf(log) == SentOf(log[..n]);
      } else {
        SubsequenceNext(SentOf(log[..n]), Offered(log[..n]), log[n].e, log[n].Sent?);
        assert SentOf(log) == if log[n].Sent? then SentOf(log[..n]) + [log[n].e] else SentOf(log[..n]);
      }
    }
  }

  /** One offer extends the log by at most a report and then e's own mark. */
  ghost predicate Fate(before: seq<Mark>, dropped: nat, e: Event, pre: seq<Mark>, m: Mark) {
    && (m == Sent(e) || m == Lost(e) || m == Ended(e))
    && (pre == before || (pre == before + [Reported(dropped)] && e.Line? && dropped > 0))
  }

  /** The sending half of a log sink and the channel it writes to. */
  class Outlet {
    var queue: seq<Event>
    var backlog: int
    var dropped: nat
    /** Whether the caller's context has been cancelled. */
    var done: bool
    ghost var received: seq<Event>
    ghost var log: seq<Mark>
    /** What a send that does not wait was tried with and found the channel full. */
    ghost var refused: seq<Event>

    ghost predicate Valid()
      reads this
    {
      && |queue| <= LOG_BUFFER
      && received + queue == OnWire(log)
      && dropped == Pending(log)
      && Honest(log)
      && (backlog > 0 ==> LostCount(log) == 0 && dropped == 0)
      && (EndedCount(log) > 0 ==> done)
    }

    constructor (tail: int)
      ensures Valid() && log == [] && backlog == tail && !done
    {
      queue, backlog, dropped, done := [], tail, 0, false;
      received, log, refused := [], [], [];
    }

    ghost method Record(m: Mark)
      requires Honest(log) && (m.Reported? ==> m.count == Pending(log) > 0)
      modifies this`log
      ensures log == old(log) + [m]
      ensures Honest(log)
      ensures OnWire(log) == old(OnWire(log)) + if m.Sent? then [m.e] else if m.Reported? then [DropNotice(m.count)] else []
      ensures Pending(log) == if m.Reported? then 0 else if m.Lost? then old(Pending(log)) + 1 else old(Pending(log))
      ensures LostCount(log) == old(LostCount(log)) + if m.Lost? then 1 else 0
      ensures EndedCount(log) == old(EndedCount(log)) + if m.Ended? then 1 else 0
    {
      assert (log + [m])[..|log|] == log;
      log := log + [m];
    }

    /** The client takes what it likes from the front, and its context may end. */
    method Consume()
      requires Valid()
      modifies this`queue, this`received, this`done
      ensures Valid()
      ensures old(received) <= received && |queue| <= |old(queue)|
      ensures old(done) ==> done
    {
      var k: int := *;
      if 0 <= k <= |queue| {
        received, queue := received + queue[..k], queue[k..];
        assert received + queue == old(received + queue);
      }
      var ended := *;
      done := done || ended;
    }

    /** A blocked sender resumes when the client has taken something or the
        context has ended. */
    method Await()
      requires Valid()
      modifies this`queue, this`received, this`done
      ensures Valid()
      ensures old(received) <= received && |queue| <= |old(queue)|
      ensures old(done) ==> done
      ensures |queue| < LOG_BUFFER || done
    {
      Consume();
      if |queue| == LOG_BUFFER && !done {
        received, queue := received + [queue[0]], queue[1..];
        assert received + queue == old(received + queue);
      }
    }

    /** A read from the daemon stalled, so the backlog is over. */
    method CaughtUp()
      requires Valid()
      modifies this`backlog
      ensures Valid() && backlog == 0
    {
      backlog := 0;
    }

    ghost function MarkOf(e: Event): Mark {
      if e.DropNotice? then Reported(e.count) else Sent(e)
    }

    /** Puts an event in the channel, which has room. */
    method Put(e: Event)
      requires Valid() && |queue| < LOG_BUFFER
      requires e.DropNotice? ==> e.count == dropped > 0
      modifies this`queue, this`dropped, this`log
      ensures Valid() && log == old(log) + [MarkOf(e)] && |queue| == |old(queue)| + 1
      ensures dropped == if e.DropNotice? then 0 else old(dropped)
    {
      Record(MarkOf(e));
      queue := queue + [e];
      if e.DropNotice? { dropped := 0; }
      assert received + queue == old(received + queue) + [e];
    }

    /** A send that does not wait: the event goes in exactly when there is room,
        whatever the client took just before. */
    method TryPut(e: Event) returns (sent: bool)
      requires Valid()
      requires e.DropNotice? ==> e.count == dropped > 0
      modifies this`queue, this`received, this`done, this`dropped, this`log, this`refused
      ensures Valid() && old(received) <= received && (old(done) ==> done)
      ensures !sent ==> |queue| == LOG_BUFFER
      ensures log == if sent then old(log) + [MarkOf(e)] else old(log)
      ensures refused == if sent then old(refused) else old(refused) + [e]
      ensures dropped == if sent && e.DropNotice? then 0 else old(dropped)
    {
      Consume();
      sent := |queue| < LOG_BUFFER;
      if sent {
        Put(e);
      } else {
        refused := refused + [e];
      }
    }

    /** Drops are to be reported before e is offered. */
    ghost predicate Due(e: Event)
      reads this`dropped
    {
      dropped > 0 && !IsNotice(e)
    }

    /** Says how many lines were dropped, if any were, unless the channel is full. */
    method ReportDrops(e: Event)
      requires Valid()
      modifies this`queue, this`received, this`done, this`dropped, this`log, this`refused
      ensures Valid() && old(received) <= received && (old(done) ==> done)
      ensures !old(Due(e)) ==> log == old(log) && refused == old(refused)
      ensures refused != old(refused) ==> |queue| == LOG_BUFFER
      ensures old(Due(e)) ==>
                (log == old(log) + [Reported(old(dropped))] && refused == old(refused)) ||
                (log == old(log) && refused == old(refused) + [DropNotice(old(dropped))])
    {
      if dropped > 0 && !IsNotice(e) {
        var sent := TryPut(DropNotice(dropped));
      }
    }

    /** The backlog phase: wait for room, or for the context to end. */
    method SendBlocking(e: Event)
      requires Valid() && !e.DropNotice? && backlog > 0
      modifies this`queue, this`received, this`done, this`dropped, this`log, this`backlog
      ensures Valid() && old(received) <= received
      ensures log in {old(log) + [Sent(e)], old(log) + [Ended(e)]}
      ensures backlog == if log == old(log) + [Sent(e)] then old(backlog) - 1 else old(backlog)
    {
      Await();
      var either := *;
      if |queue| < LOG_BUFFER && (either || !done) {
        Put(e);
        backlog := backlog - 1;
      } else {
        Record(Ended(e));
      }
    }

    /** The live phase: deliver now or count a drop. */
    method SendLive(e: Event)
      requires Valid() && !e.DropNotice? && backlog <= 0
      modifies this`queue, this`received, this`done, this`dropped, this`log, this`refused
      ensures Valid() && old(received) <= received
      ensures (log == old(log) + [Sent(e)] && refused == old(refused)) ||
              (log == old(log) + [Lost(e)] && refused == old(refused) + [e] && |queue| == LOG_BUFFER)
    {
      var sent := TryPut(e);
      if !sent {
        Record(Lost(e));
        dropped := dropped + 1;
      }
    }

    /** The event itself, once any drops have been reported. */
    method Place(e: Event) returns (ghost m: Mark)
      requires Valid() && !e.DropNotice?
      modifies this
      ensures Valid() && old(received) <= received
      ensures log == old(log) + [m] && m in {Sent(e), Lost(e), Ended(e)}
      ensures m.Lost? ==> old(backlog) <= 0 && |queue| == LOG_BUFFER
      ensures old(done) ==> m.Ended?
      ensures refused == if m.Lost? then old(refused) + [e] else old(refused)
      ensures backlog == if old(backlog) > 0 && m.Sent? then old(backlog) - 1 else old(backlog)
    {
      Consume();
      if done {
        m := Ended(e);
        Record(m);
        return;
      }
      hide Valid;
      if backlog > 0 {
        SendBlocking(e);
        m := if log == old(log) + [Sent(e)] then Sent(e) else Ended(e);
      } else {
        SendLive(e);
        m := if log == old(log) + [Sent(e)] then Sent(e) else Lost(e);
      }
    }

    /** Offers one event. The log gains at most a report of the drops so far and
        then exactly one mark for e. Drops not yet reported are reported first
        unless the channel is full; e is dropped only outside the backlog and only
        because the channel is full; nothing is offered to a cancelled context. */
    method Send(e: Event)
      requires Valid() && !e.DropNotice?
      modifies this
      ensures Valid() && old(received) <= received
      ensures Offered(log) == old(Offered(log)) + [e]
      ensures log != [] && Fate(old(log), old(dropped), e, log[..|log| - 1], log[|log| - 1])
      ensures log[|log| - 1].Lost? ==> old(backlog) <= 0 && |queue| == LOG_BUFFER
      ensures old(done) ==> log[|log| - 1].Ended?
      ensures refused == old(refused) +
                (if old(Due(e)) && log[..|log| - 1] == old(log) then [DropNotice(old(dropped))] else []) +
                (if log[|log| - 1].Lost? then [e] else [])
      ensures backlog == if old(backlog) > 0 && log[|log| - 1].Sent? then old(backlog) - 1 else old(backlog)
    {
      hide Valid, Offered;
      ReportDrops(e);
      ghost var pre := log;
      ghost var m := Place(e);
      OfferedNext(old(log), pre, m);
      assert log[..|log| - 1] == pre && log[|log| - 1] == m;
    }
  }

  /** A report offers nothing, and any other mark offers its event. */
  lemma OfferedNext(log: seq<Mark>, pre: seq<Mark>, m: Mark)
    requires !m.Reported?
    requires pre == log || exists n :: pre == log + [Reported(n)]
    ensures Offered(pre + [m]) == Offered(log) + [m.e]
  {
  }
}
