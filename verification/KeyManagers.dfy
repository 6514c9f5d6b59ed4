/** The operator key operations of `api_key.rs` as they run, proved against their plans. */
module KeyManagers {
  import opened Prelude
  import opened Records
  import opened Store
  import opened Directories
  import opened ApiKeys

  /** A key record while a transaction changes it. */
  class LiveKey {
    const domain: string
    const alias: string
    const recordId: string
    var epoch: string
    var revision: nat
    var generation: nat
    var state: KeyState
    var secret: Option<string>

    function Value(): Key
      reads this
    {
      Key(domain, alias, recordId, epoch, revision, generation, state, secret)
    }

    constructor (key: Key)
      ensures Value() == key
    {
      domain, alias, recordId, epoch := key.domain, key.alias, key.recordId, key.epoch;
      revision, generation, state, secret := key.revision, key.generation, key.state, key.secret;
    }

    /** `advance`; a caller that is refused drops the record. */
    method Advance(material: bool, newEpoch: string) returns (ok: bool)
      modifies this`revision, this`generation, this`epoch
      ensures ok <==> old(Value()).Advance(material, newEpoch).Some?
      ensures ok ==> Value() == old(Value()).Advance(material, newEpoch).value
    {
      if revision >= MAX_U64 {
        return false;
      }
      revision := revision + 1;
      if material {
        if generation >= MAX_U64 {
          return false;
        }
        generation := generation + 1;
      }
      epoch := newEpoch;
      ok := true;
    }
  }

  /** The ghost `w` of an operation is any world on this disk in which the drawn identifiers are new. */
  class KeyManager {
    const k: Keyring
    const directory: Directory

    ghost predicate Valid()
      reads directory
    {
      directory.codec == k.codec && directory.State().Sound()
    }

    constructor (k: Keyring)
      ensures this.k == k && Valid() && fresh(directory) && directory.State() == EmptyDisk
    {
      this.k := k;
      directory := new Directory(k.codec);
    }

    method LoadKey(domain: string, alias: string) returns (key: Option<LiveKey>, recovery: bool)
      ensures key.Some? <==> KeyAt(directory.State(), domain, alias).Some?
      ensures key.Some? ==> fresh(key.value) && key.value.Value() == KeyAt(directory.State(), domain, alias).value
      ensures recovery == directory.State().Recovery(SlotOf(domain, alias))
    {
      recovery := directory.State().Recovery(SlotOf(domain, alias));
      var document := directory.State().Current(domain);
      if alias !in document.keys {
        return None, recovery;
      }
      var live := new LiveKey(document.keys[alias]);
      key := Some(live);
    }

    /** `add_api_key` once its domain exists. */
    method Add(ghost w: World, domain: string, alias: string, secret: string, recordId: string, epoch: string, io: Io)
      returns (r: Outcome)
      requires Valid() && w.disk == directory.State() && recordId !in w.ids && epoch !in w.ids && recordId != epoch
      modifies directory
      ensures Valid()
      ensures var s := Apply(k, w, Event.Add(domain, alias, secret, recordId, epoch, io));
              directory.State() == s.world.disk && r == s.outcome
    {
      hide Disk.Publish, Disk.ClearUnpublished, Disk.Sound;
      var existing, recovery := LoadKey(domain, alias);
      if recovery {
        return Failed(PersistenceUncertain);
      }
      if existing.Some? {
        return Failed(KeyExists);
      }
      r := directory.PublishRecord(domain, alias,
        KeyRecord(Key(domain, alias, recordId, epoch, 1, 1, Enabled, Some(secret))), io);
    }

    method Replace(ghost w: World, domain: string, alias: string, revision: nat, secret: string, epoch: string, io: Io)
      returns (r: Outcome)
      requires Valid() && w.disk == directory.State() && epoch !in w.ids
      modifies directory
      ensures Valid()
      ensures var s := Apply(k, w, Event.Replace(domain, alias, revision, secret, epoch, io));
              directory.State() == s.world.disk && r == s.outcome
    {
      hide Disk.Publish, Disk.ClearUnpublished, Disk.Sound;
      var key, _ := LoadKey(domain, alias);
      if key.None? {
        return Failed(KeyUnavailable);
      }
      var record := key.value;
      if record.revision != revision {
        return Failed(Superseded);
      }
      var ok := record.Advance(true, epoch);
      if !ok {
        return Failed(Error.Storage);
      }
      record.secret := Some(secret);
      record.state := Enabled;
      r := directory.PublishRecord(domain, alias, KeyRecord(record.Value()), io);
    }

    method SetEnabled(
        ghost w: World, domain: string, alias: string, revision: nat, enabled: bool, epoch: string, io: Io)
      returns (r: Outcome)
      requires Valid() && w.disk == directory.State() && epoch !in w.ids
      modifies directory
      ensures Valid()
      ensures var s := Apply(k, w, Event.SetEnabled(domain, alias, revision, enabled, epoch, io));
              directory.State() == s.world.disk && r == s.outcome
    {
      hide Disk.Publish, Disk.ClearUnpublished, Disk.Sound;
      var key, recovery := LoadKey(domain, alias);
      if key.None? {
        return Failed(KeyUnavailable);
      }
      var record := key.value;
      if record.revision != revision {
        return Failed(Superseded);
      }
      if recovery {
        return Failed(PersistenceUncertain);
      }
      if record.secret.None? {
        return Failed(KeyUnavailable);
      }
      var ok := record.Advance(false, epoch);
      if !ok {
        return Failed(Error.Storage);
      }
      record.state := if enabled then Enabled else Disabled;
      r := directory.PublishRecord(domain, alias, KeyRecord(record.Value()), io);
    }

    /** `remove_api_key` keeps a tombstone, and clears the marker of a key that was never published. */
    method Remove(ghost w: World, domain: string, alias: string, revision: nat, epoch: string, io: Io)
      returns (r: Outcome)
      requires Valid() && w.disk == directory.State() && epoch !in w.ids
      modifies directory
      ensures Valid()
      ensures var s := Apply(k, w, Event.Remove(domain, alias, revision, epoch, io));
              directory.State() == s.world.disk && r == s.outcome
    {
      hide Disk.Publish, Disk.ClearUnpublished, Disk.Sound;
      var key, recovery := LoadKey(domain, alias);
      if key.None? && recovery && revision == 0 {
        r := directory.ClearUnpublished(SlotOf(domain, alias), io);
        return;
      }
      if key.None? {
        return Failed(KeyUnavailable);
      }
      var record := key.value;
      if record.revision != revision {
        return Failed(Superseded);
      }
      var ok := record.Advance(true, epoch);
      if !ok {
        return Failed(Error.Storage);
      }
      record.secret := None;
      record.state := Removed;
      r := directory.PublishRecord(domain, alias, KeyRecord(record.Value()), io);
    }
  }
}
