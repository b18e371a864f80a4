/** What the registration handler promises, stated over the functions of
    module Web: the outcome vocabulary, the order of the status decision, the
    effects of each status, idempotence, and what any sequence of
    registrations preserves. */
module WebProperties {
  import opened Wrappers
  import opened Db
  import opened Web

  // ---------------------------------------------------------------------------
  // Outcome codes

  /** Each status maps onto its code. */
  lemma OutcomeMapping(s: RegistrationStatus)
    ensures s.New? || s.Updated? || s.Running? ==> Outcome(s) == "ok"
    ensures s.Forbidden? ==> Outcome(s) == "forbidden"
    ensures s.InvalidUuid? ==> Outcome(s) == "invalid_uuid"
    ensures s.InvalidEndpoint? ==> Outcome(s) == "invalid_endpoint"
    ensures s.InternalError? ==> Outcome(s) == "internal_error"
  {
  }

  /** Every one of the five codes is produced by some status. */
  lemma OutcomeOnto(code: string)
    requires code in OutcomeCodes
    ensures exists s :: Outcome(s) == code
  {
    if code == "ok" {
      assert Outcome(New) == code;
    } else if code == "forbidden" {
      assert Outcome(Forbidden) == code;
    } else if code == "invalid_uuid" {
      assert Outcome(InvalidUuid) == code;
    } else if code == "invalid_endpoint" {
      assert Outcome(InvalidEndpoint) == code;
    } else {
      assert Outcome(InternalError) == code;
    }
  }

  /** Only the three accepted statuses share a code: a failure code names its
      status. */
  lemma OutcomeFailuresDistinct(s: RegistrationStatus, t: RegistrationStatus)
    requires Outcome(s) == Outcome(t) && Outcome(s) != "ok"
    ensures s == t
  {
  }

  // ---------------------------------------------------------------------------
  // The status decision

  /** The validators are consulted first, uuid before endpoint, and then the
      stored record makes no difference. */
  lemma ValidationFirst(uuidValid: bool, endpointValid: bool, stored: Option<Connection>,
                        other: Option<Connection>, data: ConnectionData)
    requires !uuidValid || !endpointValid
    ensures Status(uuidValid, endpointValid, stored, data) == Status(uuidValid, endpointValid, other, data)
    ensures Status(uuidValid, endpointValid, stored, data)
            == if !uuidValid then InvalidUuid else InvalidEndpoint
  {
  }

  /** A refresh (same credential pair): a forbidden record stays Forbidden,
      a new endpoint is an update, and otherwise the connection is Running. */
  lemma RefreshStatus(co: Connection, data: ConnectionData)
    requires SameCredentials(co, data)
    ensures Status(true, true, Some(co), data)
            == if co.forbidden then Forbidden
               else if co.endpoint != data.endpoint then Updated
               else Running
  {
  }

  /** A rotation (device id or password differs) is always an update,
      whatever the stored forbidden flag and endpoint. */
  lemma RotationWins(co: Connection, data: ConnectionData)
    requires !SameCredentials(co, data)
    ensures forall f: bool, e: string :: Status(true, true, Some(co.(forbidden := f, endpoint := e)), data) == Updated
  {
  }

  // ---------------------------------------------------------------------------
  // Effects of one registration

  /** A first registration for a uuid is New: the record is written with
      forbidden = false and queued when a sender is installed. */
  lemma FirstRegistration(st: State, data: ConnectionData, snapshot: Store, now: Timestamp)
    requires data.uuid !in st.store
    ensures Handle(st, data, true, true, snapshot, now) == Handled(Upsert(st, Record(data, now)), New)
    ensures Upsert(st, Record(data, now)).store[data.uuid].forbidden == false
  {
  }

  /** After New or Updated the candidate's record is stored, not forbidden,
      each other key is untouched, the record is queued exactly once if a
      sender is installed. */
  lemma AcceptedEffect(st: State, data: ConnectionData, uuidValid: bool, endpointValid: bool,
                       snapshot: Store, now: Timestamp)
    requires Handle(st, data, uuidValid, endpointValid, snapshot, now).status in {New, Updated}
    ensures var r := Handle(st, data, uuidValid, endpointValid, snapshot, now).state;
            && data.uuid in r.store
            && r.store[data.uuid] == Record(data, now)
            && (forall k :: k != data.uuid ==> Lookup(r.store, k) == Lookup(st.store, k))
            && (r.channel.Some? <==> st.channel.Some?)
            && (r.channel.Some? ==> r.channel.value == st.channel.value + [Record(data, now)])
  {
  }

  /** Running, InvalidUuid and InvalidEndpoint change nothing and are the
      final status. */
  lemma NoOpStatuses(st: State, data: ConnectionData, uuidValid: bool, endpointValid: bool,
                     snapshot: Store, now: Timestamp)
    requires Status(uuidValid, endpointValid, Lookup(st.store, data.uuid), data)
             in {Running, InvalidUuid, InvalidEndpoint}
    ensures Handle(st, data, uuidValid, endpointValid, snapshot, now)
            == Handled(st, Status(uuidValid, endpointValid, Lookup(st.store, data.uuid), data))
  {
  }

  /** A Forbidden decision is re-checked against the store as re-read:
      a missing record is an internal error, the same credentials stay
      Forbidden, and different ones are written as an update that lowers
      the forbidden gauge by one. None of the first two writes or queues. */
  lemma ForbiddenRecheck(st: State, data: ConnectionData, snapshot: Store, now: Timestamp)
    requires Status(true, true, Lookup(st.store, data.uuid), data) == Forbidden
    ensures var r := Handle(st, data, true, true, snapshot, now);
            if data.uuid !in snapshot then r == Handled(st, InternalError)
            else if SameCredentials(snapshot[data.uuid], data) then r == Handled(st, Forbidden)
            else r.status == Updated
                 && r.state == Upsert(st, Record(data, now)).(forbiddens := st.forbiddens - 1)
  {
  }

  /** When nothing changed between the two reads, a forbidden refresh has
      no effect at all. */
  lemma ForbiddenStaysWithoutRace(st: State, data: ConnectionData, now: Timestamp)
    requires Status(true, true, Lookup(st.store, data.uuid), data) == Forbidden
    ensures Handle(st, data, true, true, st.store, now) == Handled(st, Forbidden)
  {
  }

  /** The re-check path writes the candidate of THIS request: if a rotation
      raced in between the two reads, its new credential pair is replaced by
      the refreshing request's old one, and the record is no longer
      forbidden. */
  lemma RacedRecheckOverwritesRotation(st: State, data: ConnectionData, snapshot: Store, now: Timestamp)
    requires Status(true, true, Lookup(st.store, data.uuid), data) == Forbidden
    requires data.uuid in snapshot && !SameCredentials(snapshot[data.uuid], data)
    ensures var r := Handle(st, data, true, true, snapshot, now).state;
            && data.uuid in r.store
            && SameCredentials(r.store[data.uuid], data)
            && SameCredentials(st.store[data.uuid], data)
            && !SameCredentials(r.store[data.uuid], ConnectionData(data.uuid, snapshot[data.uuid].deviceId,
                                                                   snapshot[data.uuid].password, data.endpoint))
            && !r.store[data.uuid].forbidden
  {
  }

  /** Resubmitting an accepted registration unchanged is Running: no write,
      no dispatch, whatever the re-read would show. */
  lemma Idempotent(st: State, data: ConnectionData, uuidValid: bool, endpointValid: bool,
                   snapshot: Store, snapshot2: Store, now: Timestamp, later: Timestamp)
    requires Handle(st, data, uuidValid, endpointValid, snapshot, now).status in {New, Updated}
    ensures var r := Handle(st, data, uuidValid, endpointValid, snapshot, now);
            Handle(r.state, data, uuidValid, endpointValid, snapshot2, later) == Handled(r.state, Running)
  {
    AcceptedEffect(st, data, uuidValid, endpointValid, snapshot, now);
  }

  /** One registration keeps every record filed under its own uuid. */
  lemma HandleKeepsKeyed(st: State, data: ConnectionData, uuidValid: bool, endpointValid: bool,
                         snapshot: Store, now: Timestamp)
    requires Keyed(st.store)
    ensures Keyed(Handle(st, data, uuidValid, endpointValid, snapshot, now).state.store)
  {
  }

  // ---------------------------------------------------------------------------
  // Sequences of registrations handled one after the other

  /** One request with its validator results and its arrival time. */
  datatype Request = Request(data: ConnectionData, uuidValid: bool, endpointValid: bool, now: Timestamp)

  /** One request handled alone: the re-read sees the store unchanged. */
  function Step(st: State, req: Request): (s: State) {
    Handle(st, req.data, req.uuidValid, req.endpointValid, st.store, req.now).state
  }

  /** The state after handling `reqs` in order. */
  function Replay(st: State, reqs: seq<Request>): (s: State)
    decreases |reqs|
  {
    if reqs == [] then st else Replay(Step(st, reqs[0]), reqs[1..])
  }

  /** The request is an accepted rotation of `co`, filed under `k`. */
  predicate RotatesRecord(req: Request, k: string, co: Connection) {
    req.data.uuid == k && req.uuidValid && req.endpointValid && !SameCredentials(co, req.data)
  }

  /** Registrations never remove a record. */
  lemma {:induction false} ReplayKeepsKeys(st: State, reqs: seq<Request>)
    ensures st.store.Keys <= Replay(st, reqs).store.Keys
    decreases |reqs|
  {
    if reqs != [] {
      ReplayKeepsKeys(Step(st, reqs[0]), reqs[1..]);
    }
  }

  /** Handled alone, a request changes a forbidden record only if it rotates
      its credentials. */
  lemma StepRevivesOnlyByRotation(st: State, req: Request, k: string)
    requires k in st.store && st.store[k].forbidden
    ensures k in Step(st, req).store
    ensures Step(st, req).store[k] == st.store[k] || RotatesRecord(req, k, st.store[k])
  {
    if req.data.uuid == k && req.uuidValid && req.endpointValid && SameCredentials(st.store[k], req.data) {
      ForbiddenStaysWithoutRace(st, req.data, req.now);
    }
  }

  /** A forbidden record is never revived by same-credential resubmissions:
      after any sequence of registrations it is either untouched or some
      accepted request in the sequence rotated its credentials. */
  lemma {:induction false} ForbiddenRevivedOnlyByRotation(st: State, reqs: seq<Request>, k: string)
    requires k in st.store && st.store[k].forbidden
    ensures k in Replay(st, reqs).store
    ensures Replay(st, reqs).store[k] == st.store[k]
            || exists i :: 0 <= i < |reqs| && RotatesRecord(reqs[i], k, st.store[k])
    decreases |reqs|
  {
    if reqs != [] {
      var next := Step(st, reqs[0]);
      StepRevivesOnlyByRotation(st, reqs[0], k);
      if next.store[k] == st.store[k] {
        ForbiddenRevivedOnlyByRotation(next, reqs[1..], k);
        if Replay(st, reqs).store[k] != st.store[k] {
          var i :| 0 <= i < |reqs[1..]| && RotatesRecord(reqs[1..][i], k, next.store[k]);
          assert RotatesRecord(reqs[i + 1], k, st.store[k]);
        }
      } else {
        ReplayKeepsKeys(next, reqs[1..]);
        assert RotatesRecord(reqs[0], k, st.store[k]);
      }
    }
  }

  /** The handler itself never sets the forbidden flag: every forbidden
      record after a sequence of registrations was already stored, unchanged,
      before it; and every record it queues is not forbidden. */
  lemma {:induction false} ReplayNeverForbids(st: State, reqs: seq<Request>)
    ensures var r := Replay(st, reqs);
            forall k :: k in r.store && r.store[k].forbidden ==> k in st.store && r.store[k] == st.store[k]
    ensures var r := Replay(st, reqs);
            && (r.channel.Some? <==> st.channel.Some?)
            && (r.channel.Some? ==> |st.channel.value| <= |r.channel.value|
                                    && r.channel.value[..|st.channel.value|] == st.channel.value
                                    && forall j :: |st.channel.value| <= j < |r.channel.value| ==> !r.channel.value[j].forbidden)
    decreases |reqs|
  {
    if reqs != [] {
      var next := Step(st, reqs[0]);
      ReplayNeverForbids(next, reqs[1..]);
      var r := Replay(st, reqs);
      assert r == Replay(next, reqs[1..]);
      if r.channel.Some? {
        var q0, q1, q := st.channel.value, next.channel.value, r.channel.value;
        assert q1 == q0 || q1 == q0 + [Record(reqs[0].data, reqs[0].now)];
        assert q[..|q1|] == q1;
        assert q[..|q0|] == q1[..|q0|];
      }
    }
  }
}
