# Registration reconciler of mollysocket, in Dafny

This project models the registration handler of mollysocket's web server,
`src/server/web.rs`. A device posts a registration made of a uuid, a device
id, a password and a push endpoint. The handler first decides one of seven
statuses. It then applies that status: it may upsert the record into the
connection store (`DB`), queue it for the connection manager on the dispatch
channel (`TX`), and lower the forbidden-connection gauge
(`METRICS.forbiddens`). The caller sees one of five outcome codes.

Files:

- `wrappers.dfy`: the `Option` type.
- `db.dfy`: the stored `Connection` record, `u32`, a timestamp type, and the
  store's `get` as `Lookup` over a `map`.
- `web.dfy`: this module holds the following.
  - The request body and the status enum.
  - The code mapping (`Outcome`) and the decision (`Status`).
  - The effects as pure specification functions (`Upsert`, `Apply`, `Handle`).
  - The class `Reconciler`, whose fields are the store, the dispatch queue and
    the gauge. Its methods `NewConnection` and `Register` change those fields
    in place, and each is proved equal to its specification function.
- `web_properties.dfy`: lemmas about what the handler promises.
  - About one registration: validation order, refresh against rotation,
    the effect of each status, the Forbidden re-check, idempotence.
  - About any sequence of registrations handled one after another (`Replay`).
    A forbidden record is revived only by a credential rotation. The handler
    never sets the forbidden flag itself.

Modelling choices:

- `is_uuid_valid` and `is_endpoint_valid` are external validators. Their
  results are boolean inputs.
- `SystemTime::now()` is an opaque `now` input.
- The second `DB.get` in the Forbidden branch (line 88) is a separate
  snapshot of the store, the `snapshot` parameter. Another request may have
  written the store between the two reads. Writes always go to the
  reconciler's own store.
- The dispatch channel is `Option<seq<Connection>>`. `None` means that no
  sender is installed. `Some(q)` holds what has been queued so far.
- `new_connection` always returns `Ok`, because `DB.add(..).unwrap()` either
  succeeds or panics. The model keeps the source's `if !ok` branches that set
  InternalError. They are unreachable, as they are in the source.
- On Running the code does not update `last_registration` (the TODO at line
  105). The model does not update it either.

In the Forbidden re-check (lines 88-93) the code calls `new_connection` with
the refreshing request's own data. Suppose the re-read finds the record
rotated. Then that write puts the refreshing request's credential pair back in
place of the rotation's, and sets `forbidden = false`.
`RacedRecheckOverwritesRotation` states this. Without a race the re-check
never writes (`ForbiddenStaysWithoutRace`).

## Model

| member | source | states |
|---|---|---|
| Web.Outcome | src/server/web.rs:40-53 | the code is one of the five codes, and it is "ok" exactly for New, Updated and Running |
| WebProperties.OutcomeMapping | src/server/web.rs:40-53 | Forbidden, InvalidUuid, InvalidEndpoint and InternalError map to "forbidden", "invalid_uuid", "invalid_endpoint" and "internal_error"; the others map to "ok" |
| WebProperties.OutcomeOnto | src/server/web.rs:40-53 | each of the five codes is produced by some status |
| WebProperties.OutcomeFailuresDistinct | src/server/web.rs:46-49 | two statuses with the same non-"ok" code are the same status |
| Web.Status | src/server/web.rs:141-172 | never InternalError; InvalidUuid iff the uuid is invalid; InvalidEndpoint iff the uuid is valid and the endpoint is not; New iff both are valid and nothing is stored; Forbidden only for a forbidden record with the same credential pair; Running only for a non-forbidden record with the same pair and endpoint; Updated only for a rotation or a changed endpoint |
| WebProperties.ValidationFirst | src/server/web.rs:142-151 | with an invalid uuid or endpoint, the status does not depend on the stored record; the uuid check comes first |
| WebProperties.RefreshStatus | src/server/web.rs:160-168 | with the same credential pair: Forbidden if the record is forbidden, else Updated if the endpoint differs, else Running |
| WebProperties.RotationWins | src/server/web.rs:160-171 | with a different device id or password, the status is Updated for every stored forbidden flag and endpoint |
| Web.Apply | src/server/web.rs:62-117 | applying a status lowers the gauge by at most one, touches no key but the candidate's uuid, and either leaves the state alone or stores the candidate's record; a final status other than New or Updated means no change at all |
| Web.Handle | src/server/web.rs:61-117 | an invalid uuid, or a valid uuid with an invalid endpoint, ends with that status and the state unchanged |
| Web.Reconciler.NewConnection | src/server/web.rs:125-139 | the new state is `Upsert` of the old state with the candidate's fresh record: the store maps the uuid to that non-forbidden record, the record is queued exactly when a sender is installed, the gauge is unchanged; the result is always success |
| Web.Reconciler.Register | src/server/web.rs:61-123 | the final status and the new store, queue and gauge are those of `Handle` on the old state |
| WebProperties.FirstRegistration | src/server/web.rs:64-77 | with valid inputs and no stored record the status is New and the candidate's non-forbidden record is upserted, and queued when a sender is installed |
| WebProperties.AcceptedEffect | src/server/web.rs:64-85 | after a final New or Updated, the candidate's record is stored, every other key is unchanged, and exactly that record is appended to the queue if a sender is installed |
| WebProperties.NoOpStatuses | src/server/web.rs:104-112 | for Running, InvalidUuid and InvalidEndpoint the state is unchanged and the final status is the decided one |
| WebProperties.ForbiddenRecheck | src/server/web.rs:86-103 | after a Forbidden decision: a missing re-read record gives InternalError with no change; the same credentials stay Forbidden with no change; different credentials write and queue the candidate, give Updated and lower the gauge by exactly one |
| WebProperties.ForbiddenStaysWithoutRace | src/server/web.rs:86-98 | when the re-read sees the same store, a Forbidden decision changes nothing and stays Forbidden |
| WebProperties.RacedRecheckOverwritesRotation | src/server/web.rs:88-93 | when a raced rotation is found at the re-read, the stored record ends with the refreshing request's credential pair, not the rotation's, and is no longer forbidden |
| WebProperties.Idempotent | src/server/web.rs:125-133 | resubmitting a registration that ended New or Updated gives Running and leaves the state unchanged |
| WebProperties.HandleKeepsKeyed | src/server/web.rs:126-134 | one registration keeps every stored record filed under its own uuid |
| WebProperties.ReplayKeepsKeys | src/server/web.rs:134 | a sequence of registrations never removes a stored uuid |
| WebProperties.StepRevivesOnlyByRotation | src/server/web.rs:86-98 | one registration handled alone changes a forbidden record only if it is a valid rotation of that record |
| WebProperties.ForbiddenRevivedOnlyByRotation | src/server/web.rs:160-171 | after any sequence of registrations, a forbidden record is still stored, and it is either unchanged or some valid request in the sequence rotated its credential pair |
| WebProperties.ReplayNeverForbids | src/server/web.rs:126-136 | after any sequence of registrations, every forbidden record was stored unchanged beforehand; the queue keeps its old contents as a prefix, and every record appended to it is not forbidden |

## Left out

- The `discover` route, the Rocket route attributes, `launch` with its host and port configuration, and `mount_metrics` (lines 55-58 and 182-198). These are HTTP plumbing.
- `gen_rep` and the version string (lines 174-180). The version is a build-time constant. The model's result is the status, and `Outcome` gives its code.
- `ping` of a new endpoint (line 67). It is a network probe whose failure is only logged. `Url::from_str(..).unwrap()` is not modelled either.
- `config::is_uuid_valid` and `config::is_endpoint_valid` are foreign, and the endpoint check is asynchronous. Their results are inputs. The model does not keep the order in which the source calls them. `is_endpoint_valid` runs first (line 142), even for an invalid uuid. Only the decision at lines 145-151 looks at the uuid first.
- The internals of the store, the mutex around `TX`, lock poisoning and `unbounded_send` errors. The code discards send errors.
- `DB.add(..).unwrap()` panics. The add is taken to succeed, so the InternalError branches for a write failure (lines 73-76, 81-84 and 94-97) are unreachable.
- A failed `DB.get` is modelled as a missing key. The source treats any read error like an absent record: `Err(_) => return New` at line 155 and the `else` branch at lines 99-101. If the first read of a stored forbidden record failed, the source would write the record again with the same credentials and `forbidden = false`. The model does not capture this, and `ForbiddenRevivedOnlyByRotation` holds only because reads never fail in the model.
- `SystemTime::now()` and `OptTime` (line 132). The timestamp is an opaque parameter.
- Logging (`log::debug!`, `log::warn!`). It has no behavioural effect.
- Concurrency between requests. Only the changed re-read of the Forbidden branch is modelled, as an input snapshot. Interleavings of handlers are not modelled. `Replay` handles requests one after another.
- The forbidden gauge is an unbounded integer. The 64-bit range of the metric is not modelled.
