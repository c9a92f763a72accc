/**
 The task ids of server/main.cpp come from `++task_counter` on a plain int that
 no lock protects: each handler thread reads the counter and later writes back
 the value plus one, which is also the id it hands out.
 */
module CounterRace {

  type Handler = nat

  datatype Access = Read(h: Handler) | Write(h: Handler)

  /** A handler writes after it has read; every one that reads does write in the end. */
  predicate WellFormed(schedule: seq<Access>, open: set<Handler>) {
    if schedule == [] then open == {}
    else
      match schedule[0]
      case Read(h) => h !in open && WellFormed(schedule[1..], open + {h})
      case Write(h) => h in open && WellFormed(schedule[1..], open - {h})
  }

  lemma KeysAfter(read: map<Handler, nat>, h: Handler, counter: nat)
    ensures read[h := counter].Keys == read.Keys + {h} && (read - {h}).Keys == read.Keys - {h}
  {
  }

  const NONE: map<Handler, nat> := map[]

  /** A schedule from start to end: nobody is in the middle of an increment. */
  predicate Complete(schedule: seq<Access>) {
    WellFormed(schedule, NONE.Keys)
  }

  /** The ids handed out by a schedule, in the order of the writes. */
  function Issued(schedule: seq<Access>, counter: nat, read: map<Handler, nat>): seq<nat>
    requires WellFormed(schedule, read.Keys)
  {
    if schedule == [] then []
    else
      KeysAfter(read, schedule[0].h, counter);
      match schedule[0]
      case Read(h) => Issued(schedule[1..], counter, read[h := counter])
      case Write(h) => [read[h] + 1] + Issued(schedule[1..], read[h] + 1, read - {h})
  }

  /** Increments do not overlap: each read is followed at once by the same handler's write. */
  predicate NonOverlapping(schedule: seq<Access>) {
    schedule == []
    || ( && |schedule| >= 2 && schedule[0].Read? && schedule[1] == Write(schedule[0].h)
         && NonOverlapping(schedule[2..]))
  }

  predicate Distinct(ids: seq<nat>) {
    forall i, j :: 0 <= i < j < |ids| ==> ids[i] != ids[j]
  }

  lemma CompleteStart(schedule: seq<Access>)
    requires Complete(schedule) && schedule != []
    ensures |schedule| >= 2 && schedule[0].Read?
    ensures schedule[1..] != [] && schedule[1..][0] == schedule[1] && schedule[1..][1..] == schedule[2..]
    ensures WellFormed(schedule[1..], NONE.Keys + {schedule[0].h})
    ensures schedule[1].Write? ==> schedule[1].h == schedule[0].h && Complete(schedule[2..])
  {
    var h := schedule[0].h;
    assert NONE.Keys == {} && h in NONE.Keys + {h};
    assert WellFormed(schedule[1..], NONE.Keys + {h});
    assert schedule[1..] != [];
    assert schedule[1..][1..] == schedule[2..];
    assert NONE.Keys + {h} - {h} == NONE.Keys;
  }

  lemma FirstIssued(schedule: seq<Access>, counter: nat)
    requires Complete(schedule) && schedule != [] && schedule[1..] != [] && schedule[1].Write? && Complete(schedule[2..])
    ensures Issued(schedule, counter, NONE) == [counter + 1] + Issued(schedule[2..], counter + 1, NONE)
  {
    CompleteStart(schedule);
    var h := schedule[0].h;
    var read := NONE[h := counter];
    KeysAfter(NONE, h, counter);
    assert read - {h} == NONE;
    assert Issued(schedule, counter, NONE) == Issued(schedule[1..], counter, read);
    assert Issued(schedule[1..], counter, read) == [read[h] + 1] + Issued(schedule[1..][1..], read[h] + 1, read - {h});
  }

  /** Without overlap the ids count up from the counter. */
  lemma {:induction false} AtomicIdsCountUp(schedule: seq<Access>, counter: nat)
    requires Complete(schedule) && NonOverlapping(schedule)
    ensures var ids := Issued(schedule, counter, NONE);
            forall i :: 0 <= i < |ids| ==> ids[i] == counter + 1 + i
    decreases |schedule|
  {
    if schedule != [] {
      CompleteStart(schedule);
      FirstIssued(schedule, counter);
      AtomicIdsCountUp(schedule[2..], counter + 1);
    }
  }

  /** An id that some handler has read but not yet written is handed out in the end. */
  lemma {:induction false} ReadIsIssued(schedule: seq<Access>, counter: nat, read: map<Handler, nat>, h: Handler)
    requires WellFormed(schedule, read.Keys) && h in read
    ensures exists i :: 0 <= i < |Issued(schedule, counter, read)| && Issued(schedule, counter, read)[i] == read[h] + 1
    decreases |schedule|
  {
    var ids := Issued(schedule, counter, read);
    KeysAfter(read, schedule[0].h, counter);
    match schedule[0]
    case Read(g) =>
      ReadIsIssued(schedule[1..], counter, read[g := counter], h);
    case Write(g) =>
      if g == h {
        assert ids[0] == read[h] + 1;
      } else {
        var rest := Issued(schedule[1..], read[g] + 1, read - {g});
        ReadIsIssued(schedule[1..], read[g] + 1, read - {g}, h);
        var i :| 0 <= i < |rest| && rest[i] == read[h] + 1;
        assert ids[i + 1] == rest[i];
      }
  }

  /** Two handlers that have read the same value hand out the same id. */
  lemma {:induction false} SameReadSameId(schedule: seq<Access>, counter: nat, read: map<Handler, nat>, g: Handler, h: Handler)
    requires WellFormed(schedule, read.Keys) && g in read && h in read && g != h && read[g] == read[h]
    ensures !Distinct(Issued(schedule, counter, read))
    decreases |schedule|
  {
    var ids := Issued(schedule, counter, read);
    KeysAfter(read, schedule[0].h, counter);
    match schedule[0]
    case Read(f) =>
      SameReadSameId(schedule[1..], counter, read[f := counter], g, h);
    case Write(f) =>
      var rest := Issued(schedule[1..], read[f] + 1, read - {f});
      if f == g || f == h {
        var other := if f == g then h else g;
        ReadIsIssued(schedule[1..], read[f] + 1, read - {f}, other);
        var i :| 0 <= i < |rest| && rest[i] == read[other] + 1;
        assert ids[0] == ids[i + 1];
      } else {
        SameReadSameId(schedule[1..], read[f] + 1, read - {f}, g, h);
        var i, j :| 0 <= i < j < |rest| && rest[i] == rest[j];
        assert ids[i + 1] == ids[j + 1];
      }
  }

  /** The first overlap makes two handlers read the same value. */
  lemma {:induction false} OverlapRepeatsAnId(schedule: seq<Access>, counter: nat)
    requires Complete(schedule) && !NonOverlapping(schedule)
    ensures !Distinct(Issued(schedule, counter, NONE))
    decreases |schedule|
  {
    CompleteStart(schedule);
    var h := schedule[0].h;
    var read := NONE[h := counter];
    KeysAfter(NONE, h, counter);
    if schedule[1].Read? {
      var g := schedule[1].h;
      KeysAfter(read, g, counter);
      SameReadSameId(schedule[2..], counter, read[g := counter], g, h);
    } else {
      OverlapRepeatsAnId(schedule[2..], counter + 1);
      FirstIssued(schedule, counter);
      var ids, rest := Issued(schedule, counter, NONE), Issued(schedule[2..], counter + 1, NONE);
      var i, j :| 0 <= i < j < |rest| && rest[i] == rest[j];
      assert ids[i + 1] == ids[j + 1];
    }
  }

  /** How many ids a schedule has handed out. */
  function Writes(schedule: seq<Access>): nat {
    if schedule == [] then 0 else (if schedule[0].Write? then 1 else 0) + Writes(schedule[1..])
  }

  /** In any schedule, however its other increments overlap: one that runs undisturbed after a write gets the next id. */
  lemma {:induction false} UndisturbedGetsNext(schedule: seq<Access>, counter: nat, read: map<Handler, nat>, k: nat)
    requires WellFormed(schedule, read.Keys) && k + 2 < |schedule|
    requires schedule[k].Write? && schedule[k + 1].Read? && schedule[k + 2] == Write(schedule[k + 1].h)
    ensures var ids, w := Issued(schedule, counter, read), Writes(schedule[..k]);
            w + 1 < |ids| && ids[w + 1] == ids[w] + 1
    decreases k
  {
    KeysAfter(read, schedule[0].h, counter);
    if k == 0 {
      UndisturbedPair(schedule[1..], read[schedule[0].h] + 1, read - {schedule[0].h});
    } else {
      assert schedule[..k][1..] == schedule[1..][..k - 1];
      match schedule[0]
      case Read(h) => UndisturbedGetsNext(schedule[1..], counter, read[h := counter], k - 1);
      case Write(h) => UndisturbedGetsNext(schedule[1..], read[h] + 1, read - {h}, k - 1);
    }
  }

  lemma UndisturbedPair(schedule: seq<Access>, counter: nat, read: map<Handler, nat>)
    requires WellFormed(schedule, read.Keys) && |schedule| >= 2
    requires schedule[0].Read? && schedule[1] == Write(schedule[0].h)
    ensures Issued(schedule, counter, read) != [] && Issued(schedule, counter, read)[0] == counter + 1
  {
    KeysAfter(read, schedule[0].h, counter);
    assert schedule[1..][0] == schedule[1];
    KeysAfter(read[schedule[0].h := counter], schedule[0].h, counter);
  }

  /** Task ids are unique exactly when no two increments overlap. */
  lemma IdsUniqueIff(schedule: seq<Access>, counter: nat)
    requires Complete(schedule)
    ensures Distinct(Issued(schedule, counter, NONE)) <==> NonOverlapping(schedule)
  {
    if NonOverlapping(schedule) {
      AtomicIdsCountUp(schedule, counter);
    } else {
      OverlapRepeatsAnId(schedule, counter);
    }
  }
}
