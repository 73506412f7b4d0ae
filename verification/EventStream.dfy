/** Fanning events out to connected clients (api/stream.go).

    Publishing never blocks: a client whose queue is full misses the event. A ring
    remembers the last events whoever missed them. */
module EventStream {
  import opened Text

  /** How many events a slow client may fall behind by. */
  const SUBSCRIBER_BUFFER := 64
  /** How many published events are remembered. */
  const RECENT_LIMIT := 1000

  function Last<T>(s: seq<T>, n: nat): (r: seq<T>)
    ensures |r| == if n < |s| then n else |s|
  {
    if n < |s| then s[|s| - n..] else s
  }

  lemma LastNext<T>(s: seq<T>, x: T, n: nat)
    requires n > 0
    ensures Last(s + [x], n) == (if |Last(s, n)| == n then Last(s, n)[1..] else Last(s, n)) + [x]
  {
  }

  lemma LastOfLast<T>(s: seq<T>, n: nat, m: nat)
    requires n <= m
    ensures Last(Last(s, m), n) == Last(s, n)
  {
  }

  /** picks says which published event each one in got was: in order, none twice,
      and none from before the subscription. */
  ghost predicate PickedFrom<E>(got: seq<E>, picks: seq<nat>, published: seq<E>, since: nat) {
    && |picks| == |got|
    && (forall i :: 0 <= i < |picks| ==> since <= picks[i] < |published| && got[i] == published[picks[i]])
    && (forall i, j :: 0 <= i < j < |picks| ==> picks[i] < picks[j])
  }

  lemma PickedSurvivesPublish<E>(got: seq<E>, picks: seq<nat>, published: seq<E>, since: nat, e: E)
    requires PickedFrom(got, picks, published, since) && since <= |published|
    ensures PickedFrom(got, picks, published + [e], since)
    ensures PickedFrom(got + [e], picks + [|published|], published + [e], since)
  {
  }

  /** So what a client gets is what was published since it subscribed, in order,
      with gaps. */
  lemma {:induction false} PickedIsSubsequence<E(!new)>(got: seq<E>, picks: seq<nat>, published: seq<E>, since: nat)
    requires PickedFrom(got, picks, published, since) && since <= |published|
    ensures Subsequence(got, published[since..])
    decreases |published|
  {
    var s := published[since..];
    assert got != [] ==> since <= picks[0] < |published|;
    if s != [] {
      var n := |published| - 1;
      assert published[..n][since..] == s[..|s| - 1];
      if got != [] && picks[|got| - 1] == n {
        PickedIsSubsequence(got[..|got| - 1], picks[..|got| - 1], published[..n], since);
      } else {
        PickedIsSubsequence(got, picks, published[..n], since);
      }
    }
  }

  /** A subscriber's channel. */
  class Chan<E> {
    var buf: seq<E>
    var closed: bool
    ghost var taken: seq<E>
    ghost var picks: seq<nat>
    ghost const since: nat

    constructor (ghost published: seq<E>)
      ensures buf == [] && !closed && taken == [] && since == |published|
      ensures Follows(published)
    {
      buf, closed := [], false;
      taken, picks := [], [];
      since := |published|;
    }

    ghost predicate Follows(published: seq<E>)
      reads this`buf, this`taken, this`picks
    {
      |buf| <= SUBSCRIBER_BUFFER && since <= |published| && PickedFrom(taken + buf, picks, published, since)
    }

    /** Closing a closed channel panics. */
    method Close()
      requires !closed
      modifies this`closed
      ensures closed
    {
      closed := true;
    }

    /** A non-blocking send of the event about to be the last one published; a
        send on a closed channel panics. */
    method Offer(e: E, ghost published: seq<E>)
      requires !closed && Follows(published)
      modifies this`buf, this`picks
      ensures Follows(published + [e])
      ensures buf == if |old(buf)| < SUBSCRIBER_BUFFER then old(buf) + [e] else old(buf)
    {
      PickedSurvivesPublish(taken + buf, picks, published, since, e);
      if |buf| < SUBSCRIBER_BUFFER {
        assert taken + (buf + [e]) == taken + buf + [e];
        buf, picks := buf + [e], picks + [|published|];
      }
    }
  }

  lemma FollowsOn<E>(c: Chan<E>, published: seq<E>, e: E)
    requires c.Follows(published)
    ensures c.Follows(published + [e])
  {
    PickedSurvivesPublish(c.taken + c.buf, c.picks, published, c.since, e);
  }

  lemma ValuesNext<K, V>(m: map<K, V>, k: K, v: V)
    requires k !in m
    ensures m[k := v].Values == m.Values + {v}
  {
    forall c | c in m.Values ensures c in m[k := v].Values {
      var i :| i in m && m[i] == c;
      assert m[k := v][i] == c;
    }
    assert m[k := v][k] == v;
  }

  class Stream<E(0)> {
    var next: nat
    var subs: map<nat, Chan<E>>
    var recent: seq<E>
    var closed: bool
    ghost var published: seq<E>
    /** Every channel ever handed out. */
    ghost var chans: set<Chan<E>>

    ghost predicate Valid()
      reads this, chans
    {
      && recent == Last(published, RECENT_LIMIT)
      && (forall id :: id in subs ==> id < next && subs[id] in chans && !subs[id].closed)
      && (forall i, j :: i in subs && j in subs && subs[i] == subs[j] ==> i == j)
      && (forall c :: c in chans ==> c.Follows(published))
      && (forall c :: c in chans && !c.closed ==> c in subs.Values)
      && (closed ==> subs == map[])
    }

    constructor ()
      ensures Valid() && chans == {} && published == [] && !closed
    {
      next, subs, recent, closed := 0, map[], [], false;
      published, chans := [], {};
    }

    /** Once the streams have been ended, a new client's channel is closed from
        the start. */
    method Subscribe() returns (id: nat, ch: Chan<E>)
      requires Valid()
      modifies this
      ensures Valid() && fresh(ch) && chans == old(chans) + {ch}
      ensures id == old(next) && next == old(next) + 1
      ensures recent == old(recent) && published == old(published) && closed == old(closed)
      ensures ch.closed == closed && ch.buf == [] && ch.since == |published|
      ensures subs == if closed then old(subs) else old(subs)[id := ch]
    {
      hide Chan.Follows, Last;
      id, next := next, next + 1;
      ch := new Chan(published);
      chans := chans + {ch};
      if closed {
        ch.Close();
        return;
      }
      ValuesNext(subs, id, ch);
      subs := subs[id := ch];
    }

    method Unsubscribe(id: nat)
      requires Valid()
      modifies this`subs, chans
      ensures Valid()
      ensures subs == old(subs) - {id}
      ensures forall c :: c in chans ==> c.closed == (old(c.closed) || (id in old(subs) && c == old(subs)[id]))
      ensures forall c :: c in chans ==> c.buf == old(c.buf) && c.taken == old(c.taken)
    {
      if id in subs {
        var ch := subs[id];
        subs := subs - {id};
        ch.Close();
        assert forall i :: i in old(subs) && i != id ==> subs[i] == old(subs)[i];
        forall c | c in chans && !c.closed ensures c in subs.Values {
          var i :| i in old(subs) && old(subs)[i] == c;
          assert subs[i] == c;
        }
      }
    }

    /** Ends every stream, for good. */
    method CloseAll()
      requires Valid()
      modifies this`subs, this`closed, chans
      ensures Valid() && closed && subs == map[]
      ensures forall c :: c in chans ==> c.closed && c.buf == old(c.buf) && c.taken == old(c.taken)
    {
      while subs != map[]
        modifies this`subs, chans
        invariant Valid()
        invariant forall c :: c in chans ==> c.buf == old(c.buf) && c.taken == old(c.taken)
        decreases |subs|
      {
        var id :| id in subs;
        ghost var before := subs;
        Unsubscribe(id);
        assert |subs.Keys| < |before.Keys| by {
          assert subs.Keys == before.Keys - {id};
        }
      }
      closed := true;
      forall c | c in chans ensures c.closed {
        assert c !in subs.Values;
      }
    }

    /** Offers an event to every connected client. */
    method OfferAll(e: E, ghost before: seq<E>)
      requires forall id :: id in subs ==> subs[id] in chans && !subs[id].closed
      requires forall i, j :: i in subs && j in subs && subs[i] == subs[j] ==> i == j
      requires forall c :: c in chans ==> c.Follows(before)
      modifies chans`buf, chans`picks
      ensures forall id :: id in subs ==>
                subs[id].Follows(before + [e]) &&
                subs[id].buf == if |old(subs[id].buf)| < SUBSCRIBER_BUFFER then old(subs[id].buf) + [e] else old(subs[id].buf)
      ensures forall c :: c in chans && c.closed ==> c.buf == old(c.buf) && c.Follows(before)
    {
      hide Chan.Follows;
      var todo := subs.Keys;
      while todo != {}
        modifies chans`buf, chans`picks
        invariant todo <= subs.Keys
        invariant forall id :: id in todo ==> subs[id].buf == old(subs[id].buf) && subs[id].Follows(before)
        invariant forall id :: id in subs && id !in todo ==>
                    (subs[id].Follows(before + [e]) &&
                     subs[id].buf == if |old(subs[id].buf)| < SUBSCRIBER_BUFFER then old(subs[id].buf) + [e] else old(subs[id].buf))
        invariant forall c :: c in chans && c.closed ==> c.buf == old(c.buf) && c.Follows(before)
        decreases |todo|
      {
        var id :| id in todo;
        todo := todo - {id};
        subs[id].Offer(e, before);
      }
    }

    /** A client takes the oldest event waiting for it. */
    method Receive(ch: Chan<E>) returns (ok: bool, e: E)
      requires Valid() && ch in chans
      modifies ch`buf, ch`taken
      ensures Valid()
      ensures ok <==> old(ch.buf) != []
      ensures ok ==> old(ch.buf) == [e] + ch.buf && ch.taken == old(ch.taken) + [e]
      ensures !ok ==> ch.buf == [] && ch.taken == old(ch.taken)
    {
      ok := ch.buf != [];
      if ok {
        e := ch.buf[0];
        assert ch.taken + [e] + ch.buf[1..] == ch.taken + ch.buf;
        ch.buf, ch.taken := ch.buf[1..], ch.taken + [e];
        assert forall c :: c in chans ==> c.Follows(published);
      } else {
        e := *;
      }
    }

    /** The ring after one more event. */
    method Remember(e: E)
      requires recent == Last(published, RECENT_LIMIT)
      modifies this`recent
      ensures recent == Last(published + [e], RECENT_LIMIT)
    {
      LastNext(published, e, RECENT_LIMIT);
      hide Last;
      if |recent| == RECENT_LIMIT {
        recent := recent[1..];
      }
      recent := recent + [e];
    }

    /** Remembers the event, then offers it to every connected client once. */
    method Publish(e: E)
      requires Valid()
      modifies this`recent, this`published, chans
      ensures Valid() && published == old(published) + [e]
      ensures forall id :: id in subs ==>
                subs[id].buf == if |old(subs[id].buf)| < SUBSCRIBER_BUFFER then old(subs[id].buf) + [e] else old(subs[id].buf)
      ensures forall c :: c in chans ==> c.closed == old(c.closed) && c.taken == old(c.taken)
      ensures forall c :: c in chans && c.closed ==> c.buf == old(c.buf)
    {
      hide Last, Chan.Follows;
      Remember(e);
      ghost var before := published;
      OfferAll(e, before);
      published := published + [e];
      forall c | c in chans ensures c.Follows(published) {
        if c.closed {
          FollowsOn(c, before, e);
        } else {
          var id :| id in subs && subs[id] == c;
        }
      }
    }

    /** The newest n events published, oldest first. */
    method Snapshot(n: nat) returns (out: seq<E>)
      requires Valid()
      ensures out == Last(published, if n < RECENT_LIMIT then n else RECENT_LIMIT)
    {
      var take := if n > |recent| then |recent| else n;
      out := recent[|recent| - take..];
      LastOfLast(published, if n < RECENT_LIMIT then n else RECENT_LIMIT, RECENT_LIMIT);
    }
  }

  /** Once the streams have been ended no channel ever handed out is open, and
      every client's events, taken and waiting, are in the order published. */
  lemma EndedAndInOrder<E(0, !new)>(s: Stream<E>, c: Chan<E>)
    requires s.Valid() && c in s.chans
    ensures s.closed ==> c.closed
    ensures |c.buf| <= SUBSCRIBER_BUFFER && Subsequence(c.taken + c.buf, s.published[c.since..])
  {
    PickedIsSubsequence(c.taken + c.buf, c.picks, s.published, c.since);
  }
}
