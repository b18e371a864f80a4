/** The persisted registration record and the store's `get` contract, as the
    registration handler consumes them. The storage engine itself is not part
    of this model. */
module Db {
  import opened Wrappers

  /** Rust's `u32`: the device identifier of a registration. */
  newtype u32 = x: int | 0 <= x < 0x1_0000_0000

  /** An opaque point in time (`OptTime`); the model never inspects it. */
  type Timestamp = int

  /** The record kept per uuid. */
  datatype Connection = Connection(
    uuid: string,
    deviceId: u32,
    password: string,
    endpoint: string,
    forbidden: bool,
    lastRegistration: Timestamp)

  /** The store: one record per uuid. */
  type Store = map<string, Connection>

  /** `DB.get(uuid)`: the stored record, or nothing when the key is absent. */
  function Lookup(store: Store, uuid: string): (r: Option<Connection>)
  {
    if uuid in store then Some(store[uuid]) else None
  }

  /** Every record is filed under its own uuid, as `DB.add` does. */
  ghost predicate Keyed(store: Store) {
    forall k :: k in store ==> store[k].uuid == k
  }
}
