/** Naming the replica behind a log line (backend/logs.go).

    A line carries a task id; its replica number is known from a listing of the
    service's tasks. A task that no listing has named asks for another, but no log
    stream may turn into a loop of listings. */
module LogLabels {
  import opened Text

  /** logSlotRefresh, in seconds. */
  const SLOT_REFRESH := 30

  /** Times at least an interval apart, each from the one before. */
  ghost predicate Spaced(asks: seq<nat>) {
    forall i :: 0 < i < |asks| ==> asks[i - 1] + SLOT_REFRESH <= asks[i]
  }

  /** So a stream that lasts t seconds after its first question asks at most
      t / 30 times more. */
  lemma {:induction false} AsksAreBounded(asks: seq<nat>)
    requires Spaced(asks) && asks != []
    ensures asks[0] + (|asks| - 1) * SLOT_REFRESH <= asks[|asks| - 1]
    decreases |asks|
  {
    if |asks| > 1 { AsksAreBounded(asks[..|asks| - 1]); }
  }

  class Labels {
    /** The replica number of each task a listing has named, zero for none. */
    var slots: map<string, int>
    /** Whether asking again could answer differently. */
    var asking: bool
    /** When it last asked; None is the zero time. */
    var asked: Option<nat>
    ghost var asks: seq<nat>
    ghost var clock: nat

    /** The listing made when the stream opens, of a service with a known id. */
    constructor (service: string, listing: Option<map<string, int>>, again: bool)
      ensures Valid() && asks == []
      ensures slots == (if service != "" && listing.Some? then listing.value else map[])
      ensures asking == (service != "" && again)
    {
      slots := if service != "" && listing.Some? then listing.value else map[];
      asking := service != "" && again;
      asked, asks, clock := None, [], 0;
    }

    ghost predicate Valid()
      reads this
    {
      Spaced(asks) && (asked.None? <==> asks == []) &&
      (asked.Some? ==> asks[|asks| - 1] == asked.value && asked.value <= clock)
    }

    /** slot. Asks exactly for a task never named, while asking can help and not
        within an interval of the last question; an answer already given stands
        until a new listing replaces it, and a failed listing replaces nothing.
        The clock is read twice, and only goes forward. */
    method Slot(task: string, now: nat, later: nat, listing: Option<map<string, int>>, again: bool) returns (n: int)
      requires Valid() && clock <= now <= later
      modifies this
      ensures Valid() && clock == later
      ensures var asks? := task != "" && task !in old(slots) && old(asking) &&
                           (old(asked).None? || old(asked).value + SLOT_REFRESH <= now);
              asks == (if asks? then old(asks) + [later] else old(asks)) &&
              asking == (old(asking) && (asks? ==> again)) &&
              slots == (if asks? && listing.Some? then listing.value else old(slots))
      ensures n == if task != "" && task in slots then slots[task] else 0
    {
      clock := later;
      if task == "" { return 0; }
      if task in slots { return slots[task]; }
      if !asking || (asked.Some? && now - asked.value < SLOT_REFRESH) { return 0; }
      asked, asks := Some(later), asks + [later];
      if listing.Some? { slots := listing.value; }
      if !again { asking := false; }
      n := if task in slots then slots[task] else 0;
    }
  }
}
