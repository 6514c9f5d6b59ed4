/** Operator keys of `api_key.rs`: revision-checked mutations, pinned bindings, and borrowing. */
module ApiKeys {
  import opened Prelude
  import opened Records
  import opened Store
  import opened StoreRuns

  /** The store's codec, and the digest that bindings keep of the key material. */
  datatype Keyring = Keyring(codec: Codec, sha: string -> string) {
    function Digest(secret: Option<string>): Option<string> {
      if secret.Some? then Some(sha(secret.value)) else None
    }
  }

  /** The disk, and every random identifier drawn so far. */
  datatype World = World(disk: Disk, ids: set<string>)

  datatype Event =
    | Add(domain: string, alias: string, secret: string, recordId: string, epoch: string, io: Io)
    | Replace(domain: string, alias: string, revision: nat, secret: string, epoch: string, io: Io)
    | SetEnabled(domain: string, alias: string, revision: nat, enabled: bool, epoch: string, io: Io)
    | Remove(domain: string, alias: string, revision: nat, epoch: string, io: Io)
    | Elsewhere(action: Action)

  function SlotOf(domain: string, alias: string): Slot { Slot(domain, ApiKey, alias) }

  function KeyAt(d: Disk, domain: string, alias: string): Option<Key> {
    if alias in d.Current(domain).keys then Some(d.Current(domain).keys[alias]) else None
  }

  /** The key a transaction publishes, the marker it clears instead, or the error it returns before publishing. */
  datatype Plan = Change(key: Key) | ClearMarker | Refuse(error: Error)

  /** `existing_key_lock` and the revision check of `update` */
  function Presented(d: Disk, domain: string, alias: string, revision: nat): Plan {
    var key := KeyAt(d, domain, alias);
    if key.None? then Refuse(KeyUnavailable)
    else if key.value.revision != revision then Refuse(Superseded)
    else Change(key.value)
  }

  function PlanOf(w: World, e: Event): Plan {
    match e
    case Add(domain, alias, secret, recordId, epoch, io) =>
      if recordId in w.ids || epoch in w.ids || recordId == epoch then Refuse(Error.Storage)
      else if w.disk.Recovery(SlotOf(domain, alias)) then Refuse(PersistenceUncertain)
      else if KeyAt(w.disk, domain, alias).Some? then Refuse(KeyExists)
      else Change(Key(domain, alias, recordId, epoch, 1, 1, Enabled, Some(secret)))
    case Replace(domain, alias, revision, secret, epoch, io) =>
      if epoch in w.ids then Refuse(Error.Storage)
      else
        var plan := Presented(w.disk, domain, alias, revision);
        if plan.Refuse? || plan.ClearMarker? then plan
        else
          var next := plan.key.Advance(true, epoch);
          if next.None? then Refuse(Error.Storage) else Change(next.value.(secret := Some(secret), state := Enabled))
    case SetEnabled(domain, alias, revision, enabled, epoch, io) =>
      if epoch in w.ids then Refuse(Error.Storage)
      else
        var plan := Presented(w.disk, domain, alias, revision);
        if plan.Refuse? || plan.ClearMarker? then plan
        else if w.disk.Recovery(SlotOf(domain, alias)) then Refuse(PersistenceUncertain)
        else if plan.key.secret.None? then Refuse(KeyUnavailable)
        else
          var next := plan.key.Advance(false, epoch);
          if next.None? then Refuse(Error.Storage)
             else Change(next.value.(state := if enabled then Enabled else Disabled))
    case Remove(domain, alias, revision, epoch, io) =>
      if epoch in w.ids then Refuse(Error.Storage)
      else if KeyAt(w.disk, domain, alias).None? && w.disk.Recovery(SlotOf(domain, alias)) && revision == 0
         then ClearMarker
      else
        var plan := Presented(w.disk, domain, alias, revision);
        if plan.Refuse? || plan.ClearMarker? then plan
        else
          var next := plan.key.Advance(true, epoch);
          if next.None? then Refuse(Error.Storage) else Change(next.value.(secret := None, state := Removed))
    case Elsewhere(_) => Refuse(InvalidInput)
  }

  /** Store actions of other partitions, pools and host ids, and the loss of power. */
  predicate Outside(action: Action) {
    match action
    case Publish(_, _, record, _) => record.AccountRecord?
    case ClearUnpublished(slot, _) => slot.partition == OAuth
    case _ => true
  }

  datatype Step = Step(world: World, outcome: Outcome)

  function Drawn(e: Event): set<string> {
    match e
    case Add(_, _, _, recordId, epoch, _) => {recordId, epoch}
    case Elsewhere(_) => {}
    case _ => {e.epoch}
  }

  function Apply(k: Keyring, w: World, e: Event): Step {
    if e.Elsewhere? then
      Step(if Outside(e.action) then w.(disk := Act(w.disk, k.codec, e.action)) else w, Done)
    else
      match PlanOf(w, e)
      case Refuse(error) => Step(w, Failed(error))
      case ClearMarker =>
        var r := w.disk.ClearUnpublished(SlotOf(e.domain, e.alias), e.io);
        Step(World(r.disk, w.ids + Drawn(e)), r.outcome)
      case Change(key) =>
        var r := w.disk.Publish(k.codec, e.domain, e.alias, KeyRecord(key), e.io);
        Step(World(r.disk, w.ids + Drawn(e)), r.outcome)
  }

  function Run(k: Keyring, w: World, events: seq<Event>): World {
    if events == [] then w
    else Apply(k, Run(k, w, events[..|events| - 1]), events[|events| - 1]).world
  }

  const Start := World(EmptyDisk, {})

  // ---- Bindings ----

  datatype Binding = Binding(
    domain: string, alias: string, recordId: string, epoch: string, generation: nat, material: Option<string>)

  /** `key_access`: pool members are bound even while disabled or in recovery. */
  function Bind(k: Keyring, d: Disk, domain: string, alias: string, requireEnabled: bool): Option<Binding> {
    var key := KeyAt(d, domain, alias);
    if key.None? then None
    else if requireEnabled && (d.Recovery(SlotOf(domain, alias)) || key.value.state != Enabled) then None
    else Some(Binding(domain, alias, key.value.recordId, key.value.epoch, key.value.generation,
      k.Digest(key.value.secret)))
  }

  function Borrow(k: Keyring, d: Disk, b: Binding): Option<string> {
    var key := KeyAt(d, b.domain, b.alias);
    if key.None? then None
    else if d.Recovery(SlotOf(b.domain, b.alias)) || key.value.state != Enabled
            || key.value.recordId != b.recordId || key.value.epoch != b.epoch
            || key.value.generation != b.generation || k.Digest(key.value.secret) != b.material then None
    else key.value.secret
  }
}
