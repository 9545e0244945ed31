/** Stored execution evidence and the kill-switch latch used by the executor. */
module Evidence {
  import opened Wrappers
  import opened Broker
  import opened Triggers

  datatype Source = IEX_MID | SIP_LAST

  datatype Ref = Ref(price: real, source: Source)

  /** The last state of an order the executor saw, and the reference price recorded at first sight. */
  datatype Record = Record(seen: Order, ref: Ref)

  type Records = map<ClientId, Record>

  /** A later row brings a newer order state and keeps the first reference. */
  function Upsert(recs: Records, r: Record): Records {
    recs[r.seen.cid := if r.seen.cid in recs then Record(r.seen, recs[r.seen.cid].ref) else r]
  }

  ghost predicate Grew(a: Records, b: Records) {
    forall c | c in a :: c in b && b[c].ref == a[c].ref
  }

  /** Both legs of a name carry the same reference price. */
  ghost predicate OneReferencePerName(recs: Records) {
    forall c | c in recs && c.leg == Mkt :: LimOf(c) in recs && recs[LimOf(c)].ref == recs[c].ref
  }

  /** Every stored row is an earlier state of an order the broker has. */
  ghost predicate Reflects(recs: Records, b: Book) {
    forall c | c in recs :: c in b.orders && OrderEvolves(recs[c].seen, b.orders[c])
  }

  lemma ReflectsLater(recs: Records, b: Book, c: Book)
    requires Reflects(recs, b) && Progress(b, c)
    ensures Reflects(recs, c)
  {
  }

  /** The stored records, and how often the store or a price lookup has failed so far. */
  class Recorder {
    var recs: Records
    ghost var faults: nat

    ghost predicate Valid()
      reads this
    {
      OneReferencePerName(recs)
    }

    constructor ()
      ensures Valid() && recs == map[]
    {
      recs, faults := map[], 0;
    }

    /** A call that the store does not answer, or that is the last thing the process does. */
    method Trouble<T>() returns (r: Outcome<T>)
      modifies this`faults
      ensures Down(r) && faults == old(faults) + 1
    {
      faults := faults + 1;
      if * { return Crashed; }
      return Failed(StoreDown);
    }

    method FindExecution(c: ClientId) returns (r: Outcome<Option<Record>>)
      modifies this`faults
      ensures old(faults) <= faults && (!r.Done? ==> Down(r) && faults > old(faults))
      ensures r.Done? ==> r.value == if c in recs then Some(recs[c]) else None
      ensures r.Done? ==> faults == old(faults)
    {
      if * {
        r := Trouble();
        return;
      }
      return Done(if c in recs then Some(recs[c]) else None);
    }

    /** One transaction: it may fail, or the process may die, before or after the commit. */
    method RecordExecution(row: Record) returns (r: Outcome<()>)
      requires Valid()
      requires row.seen.cid.leg == Mkt ==> LimOf(row.seen.cid) in recs && recs[LimOf(row.seen.cid)].ref == row.ref
      modifies this
      ensures Valid() && Grew(old(recs), recs)
      ensures recs == old(recs) || recs == Upsert(old(recs), row)
      ensures r.Done? ==> recs == Upsert(old(recs), row)
      ensures old(faults) <= faults && (!r.Done? ==> Down(r) && faults > old(faults))
      ensures r.Done? ==> faults == old(faults)
    {
      if * {
        r := Trouble();
        return;
      }
      recs := Upsert(recs, row);
      if * {
        r := Trouble();
        return;
      }
      return Done(());
    }
  }

  datatype Event = Event(at: int, trigger: Trigger, flattened: bool, cancelled: seq<ClientId>)

  // ----- which of several stored halts counts

  /** Stable insertion by time. */
  function Insert(e: Event, s: seq<Event>): seq<Event> {
    if s == [] || e.at < s[0].at then [e] + s else [s[0]] + Insert(e, s[1..])
  }

  function ByTime(s: seq<Event>): seq<Event> {
    if s == [] then [] else Insert(s[|s| - 1], ByTime(s[..|s| - 1]))
  }

  /** e is the oldest event, and the first stored one of its time. */
  ghost predicate IsFirst(s: seq<Event>, k: nat) {
    && k < |s|
    && (forall j | 0 <= j < |s| :: s[k].at <= s[j].at)
    && (forall j | 0 <= j < k :: s[k].at < s[j].at)
  }

  lemma {:induction false} ByTimeHead(s: seq<Event>) returns (k: nat)
    requires s != []
    ensures IsFirst(s, k) && ByTime(s) != [] && ByTime(s)[0] == s[k]
  {
    var front, last := s[..|s| - 1], s[|s| - 1];
    if front == [] { return 0; }
    k := ByTimeHead(front);
    assert forall j | 0 <= j < |front| :: s[j] == front[j];
    if last.at < front[k].at { k := |s| - 1; }
  }

  lemma FirstIsUnique(s: seq<Event>, i: nat, j: nat)
    requires IsFirst(s, i) && IsFirst(s, j)
    ensures i == j
  {
    assert s[i].at <= s[j].at && s[j].at <= s[i].at;
  }

  /** Replayed or duplicated events never change which one counts. */
  lemma ReplayKeepsFirst(s: seq<Event>, extra: seq<Event>, k: nat)
    requires IsFirst(s, k) && forall e | e in extra :: e in s
    ensures IsFirst(s + extra, k)
  {
    var t := s + extra;
    assert forall j | 0 <= j < |s| :: t[j] == s[j];
    forall j | 0 <= j < |t| ensures t[k].at <= t[j].at {
      if j >= |s| {
        var e := extra[j - |s|];
        assert e in s && t[j] == e;
        var i :| 0 <= i < |s| && s[i] == e;
      }
    }
  }

  /** A latch without a reset; it remembers only what engaged it. */
  class KillSwitch {
    var trigger: Option<Trigger>

    constructor (halted: Option<Trigger>)
      ensures trigger == halted
    {
      trigger := halted;
    }

    /** Rebuilt from the stored events: the trigger of the first one. */
    static method FromEvents(events: seq<Event>) returns (ks: KillSwitch)
      ensures fresh(ks)
      ensures ks.Halted() <==> events != []
      ensures forall k: nat | IsFirst(events, k) :: ks.trigger == Some(events[k].trigger)
    {
      ks := new KillSwitch(None);
      ghost var first: nat := 0;
      if events != [] { first := ByTimeHead(events); }
      var ordered := ByTime(events);
      for i := 0 to |ordered|
        invariant ks.trigger == if i == 0 then None else Some(ordered[0].trigger)
      {
        var _ := ks.Halt(ordered[i].trigger);
      }
      forall k: nat | IsFirst(events, k) ensures ks.trigger == Some(events[k].trigger) {
        FirstIsUnique(events, k, first);
      }
    }

    predicate Halted()
      reads this
    {
      trigger.Some?
    }

    method Halt(t: Trigger) returns (engaged: bool)
      modifies this
      ensures Halted()
      ensures engaged <==> old(trigger).None?
      ensures trigger == if old(trigger).Some? then old(trigger) else Some(t)
    {
      if trigger.Some? { return false; }
      trigger := Some(t);
      return true;
    }

    /** An engaged switch lets only sells through. */
    predicate Allows(side: Side)
      reads this
    {
      !Halted() || side == SELL
    }
  }
}
