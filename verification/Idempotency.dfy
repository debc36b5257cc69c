/**
 Idempotency reservations (backend/app/services/idempotency.py). `reserve` sends SET NX and, when the key
 exists, GET; `store_result` sends GET and then a plain SET. Commands of different calls interleave and
 the record may expire between any two of them.
 */
module Idempotency {
  import opened Options

  datatype Status = Pending | Completed

  datatype Record = Record(fingerprint: string, status: Status, payload: Option<string>)

  datatype Answer = Created(record: Record) | Replayed(record: Record) | Corrupted | Mismatch | Absent | Stored

  function Reserved(fingerprint: string): Record {
    Record(fingerprint, Pending, None)
  }

  /** The GET half of `reserve`. */
  function Compared(existing: Option<Record>, fingerprint: string): Answer {
    if existing.None? then Corrupted
    else if existing.value.fingerprint != fingerprint then Mismatch
    else Replayed(existing.value)
  }

  function WithResult(record: Record, payload: string): Record {
    record.(status := Completed, payload := Some(payload))
  }

  // ----- The service object, one call at a time -----

  class IdempotencyService {
    var records: map<string, Record>

    constructor ()
      ensures records == map[]
    {
      records := map[];
    }

    method SetIfAbsent(key: string, record: Record) returns (created: bool)
      modifies this
      ensures created == (key !in old(records))
      ensures records == if created then old(records)[key := record] else old(records)
    {
      created := key !in records;
      if created {
        records := records[key := record];
      }
    }

    method Get(key: string) returns (record: Option<Record>)
      ensures record == if key in records then Some(records[key]) else None
    {
      record := if key in records then Some(records[key]) else None;
    }

    /** Undisturbed, `reserve` creates a pending record, replays a matching one, or refuses another request's. */
    method Reserve(key: string, fingerprint: string) returns (answer: Answer)
      modifies this
      ensures key !in old(records) ==>
                && answer == Created(Record(fingerprint, Pending, None))
                && records == old(records)[key := Record(fingerprint, Pending, None)]
      ensures key in old(records) ==>
                && records == old(records)
                && answer == (if old(records)[key].fingerprint == fingerprint then Replayed(old(records)[key])
                              else Mismatch)
    {
      var created := SetIfAbsent(key, Reserved(fingerprint));
      if created {
        return Created(Reserved(fingerprint));
      }
      var existing := Get(key);
      return Compared(existing, fingerprint);
    }

    method StoreResult(key: string, payload: string) returns (answer: Answer)
      modifies this
      ensures key !in old(records) ==> answer == Absent && records == old(records)
      ensures key in old(records) ==>
                && answer == Stored
                && records.Keys == old(records).Keys
                && (forall k :: k in records && k != key ==> records[k] == old(records)[k])
                && records[key].fingerprint == old(records)[key].fingerprint
                && records[key].status == Completed && records[key].payload == Some(payload)
    {
      var existing := Get(key);
      if existing.None? {
        return Absent;
      }
      records := records[key := WithResult(existing.value, payload)];
      return Stored;
    }
  }

  // ----- Interleaved commands on one key -----

  type Client = nat

  /**
   `lives` counts the record's lifetimes: it grows whenever the key goes from absent to present. `held`
   holds what each `store_result` in progress has read, and in which lifetime.
   */
  datatype Read = Read(record: Record, life: nat)
  datatype State = State(record: Option<Record>, lives: nat, held: map<Client, Read>)

  datatype Command =
    | SetNx(fingerprint: string)
    | ReserveGet(fingerprint: string)
    | StoreGet(client: Client)
    | StoreSet(client: Client, payload: string)
    | Expire

  datatype Outcome = Outcome(state: State, answer: Option<Answer>)

  predicate Enabled(s: State, c: Command) {
    && (c.StoreGet? ==> c.client !in s.held)
    && (c.StoreSet? ==> c.client in s.held)
  }

  function Apply(s: State, c: Command): Outcome
    requires Enabled(s, c)
  {
    match c
    case SetNx(fingerprint) =>
      if s.record.None? then
        Outcome(s.(record := Some(Reserved(fingerprint)), lives := s.lives + 1), Some(Created(Reserved(fingerprint))))
      else Outcome(s, None)
    case ReserveGet(fingerprint) => Outcome(s, Some(Compared(s.record, fingerprint)))
    case StoreGet(client) =>
      if s.record.None? then Outcome(s, Some(Absent))
      else Outcome(s.(held := s.held[client := Read(s.record.value, s.lives)]), None)
    case StoreSet(client, payload) =>
      Outcome(State(Some(WithResult(s.held[client].record, payload)),
                    if s.record.None? then s.lives + 1 else s.lives, s.held - {client}), Some(Stored))
    case Expire => Outcome(s.(record := None), None)
  }

  ghost predicate IsRun(ss: seq<State>, cs: seq<Command>) {
    && |ss| == |cs| + 1
    && ss[0] == State(None, 0, map[])
    && forall i :: 0 <= i < |cs| ==> Enabled(ss[i], cs[i]) && ss[i + 1] == Apply(ss[i], cs[i]).state
  }

  ghost predicate Creates(s: State, c: Command) {
    c.SetNx? && s.record.None?
  }

  /** The write of a `store_result` finds a record that carries the fingerprint it has read. */
  ghost predicate FindsWhatItRead(s: State, c: Command)
    requires Enabled(s, c)
  {
    c.StoreSet? ==> s.record.Some? && s.record.value.fingerprint == s.held[c.client].record.fingerprint
  }

  ghost predicate StoresAreSafe(ss: seq<State>, cs: seq<Command>)
    requires IsRun(ss, cs)
  {
    forall i :: 0 <= i < |cs| ==> FindsWhatItRead(ss[i], cs[i])
  }

  /** Reservation i created the record that is there in state j, in its lifetime and with its fingerprint. */
  ghost predicate CreatorOf(ss: seq<State>, cs: seq<Command>, i: nat, j: nat)
    requires IsRun(ss, cs) && j < |ss|
  {
    && i < j && Creates(ss[i], cs[i]) && ss[i + 1].lives == ss[j].lives
    && ss[j].record.Some? && ss[j].record.value.fingerprint == cs[i].fingerprint
    && Apply(ss[i], cs[i]).answer == Some(Created(Reserved(cs[i].fingerprint)))
  }

  ghost predicate HasCreator(ss: seq<State>, cs: seq<Command>, j: nat)
    requires IsRun(ss, cs) && j < |ss|
  {
    exists i: nat :: CreatorOf(ss, cs, i, j)
  }

  ghost predicate RecordsHaveCreators(ss: seq<State>, cs: seq<Command>)
    requires IsRun(ss, cs)
  {
    forall j :: 0 <= j < |ss| && ss[j].record.Some? ==> HasCreator(ss, cs, j)
  }

  /** What each command answers and leaves, in the fields of the record. */
  lemma {:induction false} CommandsDo(s: State, c: Command)
    requires Enabled(s, c)
    ensures c.SetNx? ==>
              if s.record.None? then
                && Apply(s, c).answer == Some(Created(Record(c.fingerprint, Pending, None)))
                && Apply(s, c).state == State(Some(Record(c.fingerprint, Pending, None)), s.lives + 1, s.held)
              else Apply(s, c) == Outcome(s, None)
    ensures c.ReserveGet? ==>
              && Apply(s, c).state == s
              && (Apply(s, c).answer == Some(Corrupted) <==> s.record.None?)
              && (Apply(s, c).answer == Some(Mismatch) <==>
                  s.record.Some? && s.record.value.fingerprint != c.fingerprint)
              && (forall r :: Apply(s, c).answer == Some(Replayed(r)) <==>
                    s.record == Some(r) && r.fingerprint == c.fingerprint)
    ensures c.StoreGet? ==>
              if s.record.None? then Apply(s, c) == Outcome(s, Some(Absent))
              else Apply(s, c) == Outcome(s.(held := s.held[c.client := Read(s.record.value, s.lives)]), None)
    ensures c.StoreSet? ==>
              var after := Apply(s, c).state;
              && Apply(s, c).answer == Some(Stored)
              && after.record == Some(Record(s.held[c.client].record.fingerprint, Completed, Some(c.payload)))
              && after.lives == (if s.record.None? then s.lives + 1 else s.lives)
              && after.held == s.held - {c.client}
    ensures c.Expire? ==> Apply(s, c) == Outcome(State(None, s.lives, s.held), None)
  {
  }

  // ----- What holds in every run -----

  lemma {:induction false} LivesGrow(ss: seq<State>, cs: seq<Command>, i: nat, j: nat)
    requires IsRun(ss, cs) && i <= j < |ss|
    ensures ss[i].lives <= ss[j].lives
    decreases j
  {
    if i < j {
      LivesGrow(ss, cs, i, j - 1);
    }
  }

  /** Two reservations that create never share a lifetime, in any run: each lifetime has at most one creator. */
  lemma {:induction false} CreatorIsUnique(ss: seq<State>, cs: seq<Command>, i: nat, j: nat)
    requires IsRun(ss, cs) && i < j < |cs|
    requires Creates(ss[i], cs[i]) && Creates(ss[j], cs[j])
    ensures ss[i + 1].lives < ss[j + 1].lives
  {
    LivesGrow(ss, cs, i + 1, j);
  }

  // ----- What holds exactly when every late write is safe -----

  /** Within one lifetime the fingerprint is constant, the status only moves to completed, and nobody creates. */
  lemma {:induction false} LifetimeIsStable(ss: seq<State>, cs: seq<Command>, i: nat, j: nat)
    requires IsRun(ss, cs) && StoresAreSafe(ss, cs) && i <= j < |ss|
    requires ss[i].record.Some?
    ensures ss[i].lives <= ss[j].lives
    ensures ss[j].lives == ss[i].lives && ss[j].record.Some? ==>
              && ss[j].record.value.fingerprint == ss[i].record.value.fingerprint
              && (ss[i].record.value.status == Completed ==> ss[j].record.value.status == Completed)
    ensures j < |cs| && Creates(ss[j], cs[j]) ==> ss[j + 1].lives > ss[i].lives
    decreases j
  {
    if i < j {
      LifetimeIsStable(ss, cs, i, j - 1);
      assert FindsWhatItRead(ss[j - 1], cs[j - 1]);
      if ss[j - 1].record.None? && ss[j].record.Some? {
        assert cs[j - 1].SetNx?;
      }
    }
  }

  /** Every record in the store was put there by one reservation, whose fingerprint it carries. */
  lemma {:induction false} RecordHasCreator(ss: seq<State>, cs: seq<Command>, j: nat) returns (i: nat)
    requires IsRun(ss, cs) && StoresAreSafe(ss, cs) && j < |ss| && ss[j].record.Some?
    ensures CreatorOf(ss, cs, i, j)
  {
    assert FindsWhatItRead(ss[j - 1], cs[j - 1]);
    if ss[j - 1].record.Some? {
      i := RecordHasCreator(ss, cs, j - 1);
    } else {
      i := j - 1;
    }
  }

  /** Every replay answer carries the fingerprint of the requester, which is that of the record's creator. */
  lemma {:induction false} ReplayCarriesCreatorsFingerprint(ss: seq<State>, cs: seq<Command>, j: nat) returns (i: nat)
    requires IsRun(ss, cs) && StoresAreSafe(ss, cs) && j < |cs| && cs[j].ReserveGet?
    requires Apply(ss[j], cs[j]).answer.Some? && Apply(ss[j], cs[j]).answer.value.Replayed?
    ensures CreatorOf(ss, cs, i, j)
    ensures Apply(ss[j], cs[j]).answer.value.record.fingerprint == cs[j].fingerprint == cs[i].fingerprint
  {
    i := RecordHasCreator(ss, cs, j);
  }

  /** A write that does not find what it read leaves a record without a creator. */
  lemma {:induction false} UnsafeWriteHasNoCreator(ss: seq<State>, cs: seq<Command>, j: nat)
    requires IsRun(ss, cs) && j < |cs| && !FindsWhatItRead(ss[j], cs[j])
    requires ss[j].record.Some? ==> HasCreator(ss, cs, j)
    ensures ss[j + 1].record.Some? && !HasCreator(ss, cs, j + 1)
  {
    var k := j + 1;
    if i: nat :| CreatorOf(ss, cs, i, k) {
      LivesGrow(ss, cs, i + 1, j);
      if ss[j].record.Some? {
        var own: nat :| CreatorOf(ss, cs, own, j);
        if i < own {
          CreatorIsUnique(ss, cs, i, own);
        } else if own < i {
          CreatorIsUnique(ss, cs, own, i);
        }
      }
    }
  }

  /**
   Exactly when every record present at any time was created by a reservation of its lifetime whose fingerprint
   it carries: when each `store_result` writes over a record with the fingerprint it has read.
   */
  lemma {:induction false} RecordsHaveCreatorsIff(ss: seq<State>, cs: seq<Command>)
    requires IsRun(ss, cs)
    ensures RecordsHaveCreators(ss, cs) <==> StoresAreSafe(ss, cs)
  {
    hide IsRun, FindsWhatItRead, CreatorOf;
    if StoresAreSafe(ss, cs) {
      forall j | 0 <= j < |ss| && ss[j].record.Some? ensures HasCreator(ss, cs, j) {
        var i := RecordHasCreator(ss, cs, j);
      }
    } else {
      RunLength(ss, cs);
      var j :| 0 <= j < |cs| && !FindsWhatItRead(ss[j], cs[j]);
      if ss[j].record.Some? ==> HasCreator(ss, cs, j) {
        UnsafeWriteHasNoCreator(ss, cs, j);
      }
    }
  }

  lemma {:induction false} RunLength(ss: seq<State>, cs: seq<Command>)
    requires IsRun(ss, cs)
    ensures |ss| == |cs| + 1
    ensures forall i :: 0 <= i < |cs| ==> Enabled(ss[i], cs[i])
  {
  }

  // ----- The hypothesis on expiry -----

  /** No record expires between a `store_result`'s read and its write. */
  ghost predicate NoExpiryUnderStore(ss: seq<State>, cs: seq<Command>)
    requires |ss| == |cs| + 1
  {
    forall i :: 0 <= i < |cs| && cs[i].Expire? ==> ss[i].held == map[]
  }

  /** Every read in progress is of the record that is there, in its present lifetime. */
  ghost predicate ReadsAreCurrent(s: State) {
    forall c :: c in s.held ==>
      && s.record.Some? && s.held[c].life == s.lives
      && s.held[c].record.fingerprint == s.record.value.fingerprint
  }

  lemma {:induction false} RunKeepsReadsCurrent(ss: seq<State>, cs: seq<Command>, k: nat)
    requires IsRun(ss, cs) && NoExpiryUnderStore(ss, cs) && k < |ss|
    ensures ReadsAreCurrent(ss[k])
  {
    if k > 0 {
      RunKeepsReadsCurrent(ss, cs, k - 1);
    }
  }

  /** While no record expires under a `store_result`, every write is safe, so all of the above holds. */
  lemma {:induction false} NoExpiryMakesStoresSafe(ss: seq<State>, cs: seq<Command>)
    requires IsRun(ss, cs) && NoExpiryUnderStore(ss, cs)
    ensures StoresAreSafe(ss, cs)
  {
    forall i | 0 <= i < |cs| ensures FindsWhatItRead(ss[i], cs[i]) {
      RunKeepsReadsCurrent(ss, cs, i);
    }
  }

  lemma {:induction false} Extend(ss: seq<State>, cs: seq<Command>, c: Command)
    returns (ss': seq<State>, cs': seq<Command>)
    requires IsRun(ss, cs) && Enabled(ss[|cs|], c)
    ensures IsRun(ss', cs') && |cs'| == |cs| + 1 && ss' == ss + [Apply(ss[|cs|], c).state] && cs' == cs + [c]
  {
    ss', cs' := ss + [Apply(ss[|cs|], c).state], cs + [c];
  }

  /**
   Such a run exists: the record of "f" expires under a `store_result`, "g" is reserved, and the late write
   puts "f" back, so the creator of "g" is then refused its own key.
   */
  lemma {:induction false} ExpiryUnderStoreOverwrites() returns (ss: seq<State>, cs: seq<Command>)
    ensures IsRun(ss, cs) && |cs| == 5
    ensures Creates(ss[3], cs[3]) && cs[3].fingerprint == "g"
    ensures ss[5].lives == ss[4].lives && ss[5].record.Some? && ss[5].record.value.fingerprint == "f"
    ensures Apply(ss[5], ReserveGet("g")).answer == Some(Mismatch)
  {
    ss, cs := [State(None, 0, map[])], [];
    ss, cs := Extend(ss, cs, SetNx("f"));
    ss, cs := Extend(ss, cs, StoreGet(0));
    ss, cs := Extend(ss, cs, Expire);
    ss, cs := Extend(ss, cs, SetNx("g"));
    ss, cs := Extend(ss, cs, StoreSet(0, "result"));
    assert "f"[0] != "g"[0];
  }
}
