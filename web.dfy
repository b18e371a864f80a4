/** The registration handler of the web server: the status decision, the
    mapping of statuses onto the public outcome codes, and the side effects
    (store upsert, dispatch to the connection manager, the forbidden-connection
    gauge) that each decided status triggers. */
module Web {
  import opened Wrappers
  import opened Db

  /** The body of a registration request. */
  datatype ConnectionData = ConnectionData(
    uuid: string,
    deviceId: u32,
    password: string,
    endpoint: string)

  /** The seven internal outcomes of a registration. */
  datatype RegistrationStatus =
    | New
    | Updated
    | Running
    | Forbidden
    | InvalidUuid
    | InvalidEndpoint
    | InternalError

  /** The five codes a caller can observe. */
  const OutcomeCodes: set<string> :=
    {"ok", "forbidden", "invalid_uuid", "invalid_endpoint", "internal_error"}

  /** `From<RegistrationStatus> for String`. */
  function Outcome(s: RegistrationStatus): (code: string)
    ensures code in OutcomeCodes
    ensures code == "ok" <==> s in {New, Updated, Running}
  {
    match s
    case New | Updated | Running => "ok"
    case Forbidden => "forbidden"
    case InvalidUuid => "invalid_uuid"
    case InvalidEndpoint => "invalid_endpoint"
    case InternalError => "internal_error"
  }

  /** The candidate presents the credential pair of the stored record. */
  predicate SameCredentials(co: Connection, data: ConnectionData) {
    co.deviceId == data.deviceId && co.password == data.password
  }

  /** `registration_status`: the validator results are taken as inputs, and
      `stored` is what `DB.get(uuid)` returned. */
  function Status(uuidValid: bool, endpointValid: bool, stored: Option<Connection>,
                  data: ConnectionData): (s: RegistrationStatus)
    ensures s != InternalError
    ensures s == InvalidUuid <==> !uuidValid
    ensures s == InvalidEndpoint <==> uuidValid && !endpointValid
    ensures s == New <==> uuidValid && endpointValid && stored.None?
    ensures s == Forbidden ==> stored.Some? && stored.value.forbidden && SameCredentials(stored.value, data)
    ensures s == Running ==> stored.Some? && !stored.value.forbidden && SameCredentials(stored.value, data)
                             && stored.value.endpoint == data.endpoint
    ensures s == Updated ==> stored.Some? && (!SameCredentials(stored.value, data) || stored.value.endpoint != data.endpoint)
  {
    if !uuidValid then InvalidUuid
    else if !endpointValid then InvalidEndpoint
    else match stored
      case None => New
      case Some(co) =>
        if co.deviceId == data.deviceId && co.password == data.password then
          if co.forbidden then Forbidden
          else if co.endpoint != data.endpoint then Updated
          else Running
        else Updated
  }

  /** The record `new_connection` writes: the candidate's fields, not
      forbidden, registered at `now`. */
  function Record(data: ConnectionData, now: Timestamp): (co: Connection)
  {
    Connection(data.uuid, data.deviceId, data.password, data.endpoint, false, now)
  }

  /** The state the handler touches: the store, the dispatch queue (None when
      no sender is installed) and the forbidden-connection gauge. */
  datatype State = State(store: Store, channel: Option<seq<Connection>>, forbiddens: int)

  /** The new state and the final status of one registration. */
  datatype Handled = Handled(state: State, status: RegistrationStatus)

  /** What `new_connection` does to the state: upsert the record and, when a
      sender is installed, queue it. */
  function Upsert(st: State, co: Connection): (s: State)
  {
    State(st.store[co.uuid := co],
          match st.channel
          case None => None
          case Some(q) => Some(q + [co]),
          st.forbiddens)
  }

  /** The `match status` of `register`: applies the decided `status`;
      `reread` is what the second `DB.get(uuid)` returned. */
  function Apply(st: State, status: RegistrationStatus, data: ConnectionData,
                 reread: Option<Connection>, now: Timestamp): (r: Handled)
    ensures r.state.forbiddens == st.forbiddens || r.state.forbiddens == st.forbiddens - 1
    ensures forall k :: k != data.uuid ==> Lookup(r.state.store, k) == Lookup(st.store, k)
    ensures r.state == st || r.state.store == st.store[data.uuid := Record(data, now)]
    ensures r.status != New && r.status != Updated ==> r.state == st
  {
    match status
    case New => Handled(Upsert(st, Record(data, now)), New)
    case Updated => Handled(Upsert(st, Record(data, now)), Updated)
    case Forbidden =>
      (match reread
       case None => Handled(st, InternalError)
       case Some(co) =>
         if co.deviceId != data.deviceId || co.password != data.password then
           Handled(Upsert(st, Record(data, now)).(forbiddens := st.forbiddens - 1), Updated)
         else
           Handled(st, Forbidden))
    case Running => Handled(st, Running)
    case InvalidEndpoint => Handled(st, InvalidEndpoint)
    case InvalidUuid => Handled(st, InvalidUuid)
    case InternalError => Handled(st, InternalError)
  }

  /** One whole registration: decide from the store, then apply, re-reading
      `snapshot` (the store as the Forbidden branch finds it). */
  function Handle(st: State, data: ConnectionData, uuidValid: bool, endpointValid: bool,
                  snapshot: Store, now: Timestamp): (r: Handled)
    ensures !uuidValid ==> r == Handled(st, InvalidUuid)
    ensures uuidValid && !endpointValid ==> r == Handled(st, InvalidEndpoint)
  {
    Apply(st, Status(uuidValid, endpointValid, Lookup(st.store, data.uuid), data),
          data, Lookup(snapshot, data.uuid), now)
  }

  /** The handler's shared state: the store (`DB`), the dispatch sender and its
      queue (`TX`) and the gauge `METRICS.forbiddens`. */
  class Reconciler {
    var store: Store
    var channel: Option<seq<Connection>>
    var forbiddens: int

    function Current(): (s: State)
      reads this
    {
      State(store, channel, forbiddens)
    }

    /** An empty store, with or without a dispatch sender installed. */
    constructor (senderInstalled: bool)
      ensures store == map[] && forbiddens == 0
      ensures channel == if senderInstalled then Some([]) else None
    {
      store := map[];
      channel := if senderInstalled then Some([]) else None;
      forbiddens := 0;
    }

    /** `new_connection`: upserts a fresh, non-forbidden record and queues it
        when a sender is installed. It always succeeds. */
    method NewConnection(data: ConnectionData, now: Timestamp) returns (ok: bool)
      modifies this
      ensures ok
      ensures Current() == Upsert(old(Current()), Record(data, now))
    {
      var co := Record(data, now);
      store := store[data.uuid := co];
      match channel {
        case Some(q) => channel := Some(q + [co]);
        case None =>
      }
      ok := true;
    }

    /** `register`: decides the status from the store and applies it;
        `snapshot` is the store as the Forbidden branch re-reads it. */
    method Register(data: ConnectionData, uuidValid: bool, endpointValid: bool,
                    snapshot: Store, now: Timestamp) returns (status: RegistrationStatus)
      modifies this
      ensures Handled(Current(), status)
              == Handle(old(Current()), data, uuidValid, endpointValid, snapshot, now)
    {
      status := Status(uuidValid, endpointValid, Lookup(store, data.uuid), data);
      match status {
        case New =>
          var ok := NewConnection(data, now);
          if !ok {
            status := InternalError;
          }
        case Updated =>
          var ok := NewConnection(data, now);
          if !ok {
            status := InternalError;
          }
        case Forbidden =>
          match Lookup(snapshot, data.uuid) {
            case Some(co) =>
              if co.deviceId != data.deviceId || co.password != data.password {
                var ok := NewConnection(data, now);
                if ok {
                  status := Updated;
                  forbiddens := forbiddens - 1;
                } else {
                  status := InternalError;
                }
              }
            case None =>
              status := InternalError;
          }
        case Running =>
        case InvalidEndpoint =>
        case InvalidUuid =>
        case InternalError =>
          status := InternalError;
      }
    }
  }
}
