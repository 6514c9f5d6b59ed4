/** Every run of the credential store, with faults in any write and a power loss between any two operations. */
module StoreRuns {
  import opened Prelude
  import opened Storage
  import opened Records
  import opened Store
  import opened Publication

  datatype Action =
    | Publish(provider: string, alias: string, record: Record, io: Io)
    | ClearUnpublished(slot: Slot, io: Io)
    | EnsureNamespace(provider: string, io: Io)
    | IssueHostId(provider: string, id: string, io: Io)
    | SetPool(
        provider: string, binding: string, revision: nat, config: Pool, refused: map<Member, Error>, io: Io)
    | PowerLoss(pick: Pick)

  function Act(d: Disk, codec: Codec, action: Action): Disk {
    match action
    case Publish(provider, alias, record, io) => d.Publish(codec, provider, alias, record, io).disk
    case ClearUnpublished(slot, io) => d.ClearUnpublished(slot, io).disk
    case EnsureNamespace(provider, io) => d.EnsureNamespace(codec, provider, io).disk
    case IssueHostId(provider, id, io) => d.IssueHostId(codec, provider, id, io).disk
    case SetPool(provider, binding, revision, config, refused, io) =>
      d.SetPool(codec, provider, binding, revision, config, refused, io).disk
    case PowerLoss(pick) => d.PowerLoss(pick)
  }

  function Run(d: Disk, codec: Codec, actions: seq<Action>): Disk {
    if actions == [] then d
    else Act(Run(d, codec, actions[..|actions| - 1]), codec, actions[|actions| - 1])
  }

  lemma StutterRestates(d: Disk, provider: string)
    requires d.Sound()
    ensures Restates(d, d, provider)
  {
    CurrentProvider(d, provider);
    assert Replaces(d, d, d.Current(provider));
  }

  lemma PoolWriter(
      d: Disk, codec: Codec, provider: string, binding: string, revision: nat, config: Pool,
      refused: map<Member, Error>, io: Io)
    requires d.Sound()
    ensures var d' := d.SetPool(codec, provider, binding, revision, config, refused, io).disk;
            d'.Sound() && Restates(d, d', provider) && forall s :: d'.Visible(s) == d.Visible(s)
  {
    hide Disk.Sound, Disk.Dangling, Disk.PublishDocument, Restates, Pool.Valid;
    var document := d.Current(provider);
    CurrentProvider(d, provider);
    StutterRestates(d, provider);
    UnmarkedKeepsSound(d, codec, document.(pools := document.pools[binding := PoolStatus(revision + 1, config)]),
                       io.listing, io.commit);
  }

  lemma HostWriter(d: Disk, codec: Codec, provider: string, id: string, io: Io)
    requires d.Sound()
    ensures var d' := d.IssueHostId(codec, provider, id, io).disk;
            d'.Sound() && Restates(d, d', provider) && forall s :: d'.Visible(s) == d.Visible(s)
  {
    CurrentProvider(d, provider);
    StutterRestates(d, provider);
    UnmarkedKeepsSound(d, codec, d.Current(provider).(hostId := Some(id)), io.listing, io.commit);
  }

  lemma NamespaceWriter(d: Disk, codec: Codec, provider: string, io: Io)
    requires d.Sound()
    ensures var d' := d.EnsureNamespace(codec, provider, io).disk;
            d'.Sound() && Restates(d, d', provider) && forall s :: d'.Visible(s) == d.Visible(s)
  {
    CurrentProvider(d, provider);
    StutterRestates(d, provider);
    UnmarkedKeepsSound(d, codec, d.Current(provider), io.listing, io.commit);
  }

  /** The writers of host ids, namespaces and pools change no record and no marker, whatever their write does. */
  lemma SharedWriters(d: Disk, codec: Codec, action: Action)
    requires d.Sound() && (action.EnsureNamespace? || action.IssueHostId? || action.SetPool?)
    ensures Act(d, codec, action).Sound() && Restates(d, Act(d, codec, action), action.provider)
    ensures forall s :: Act(d, codec, action).Visible(s) == d.Visible(s)
  {
    match action
    case EnsureNamespace(provider, io) => NamespaceWriter(d, codec, provider, io);
    case IssueHostId(provider, id, io) => HostWriter(d, codec, provider, id, io);
    case SetPool(provider, binding, revision, config, refused, io) =>
      PoolWriter(d, codec, provider, binding, revision, config, refused, io);
  }

  lemma ActKeepsSound(d: Disk, codec: Codec, action: Action)
    requires d.Sound()
    ensures Act(d, codec, action).Sound()
  {
    match action
    case Publish(provider, alias, record, io) => PublishKeepsSound(d, codec, provider, alias, record, io);
    case ClearUnpublished(slot, io) => ClearKeepsSound(d, slot, io);
    case PowerLoss(pick) => PowerLossIsHarmless(d, pick);
    case _ => SharedWriters(d, codec, action);
  }

  /** Two versions of the document that may survive hold different records in this slot. */
  ghost predicate Contested(d: Disk, slot: Slot) {
    exists v, w :: v in d.DocumentFile(slot.provider).Versions() && w in d.DocumentFile(slot.provider).Versions()
                   && v.Get(slot.partition, slot.alias) != w.Get(slot.partition, slot.alias)
  }

  lemma {:induction false} RunIsSound(codec: Codec, actions: seq<Action>)
    ensures Run(EmptyDisk, codec, actions).Sound()
  {
    if actions == [] {
      assert forall s :: EmptyDisk.SoundSlot(s);
    } else {
      RunIsSound(codec, actions[..|actions| - 1]);
      ActKeepsSound(Run(EmptyDisk, codec, actions[..|actions| - 1]), codec, actions[|actions| - 1]);
    }
  }

  /** Some run of store operations, faults and power losses leads here from an empty store. */
  ghost predicate Reachable(codec: Codec, d: Disk) { exists actions :: d == Run(EmptyDisk, codec, actions) }

  /** The invariant holds after every run. */
  lemma EveryRunIsSound(codec: Codec, d: Disk)
    requires Reachable(codec, d)
    ensures d.Sound()
  {
    var actions :| d == Run(EmptyDisk, codec, actions);
    RunIsSound(codec, actions);
  }

  /**
   Marker soundness over all runs from an empty store: if two versions of a
   document that may survive disagree on a record, that record's marker is set
   in every version of the marker that may survive.
   */
  lemma MarkersAreSound(codec: Codec, d: Disk)
    requires Reachable(codec, d)
    ensures forall slot :: Contested(d, slot) ==> d.Armed(slot)
  {
    EveryRunIsSound(codec, d);
    forall slot | Contested(d, slot) ensures d.Armed(slot) {
      assert d.SoundSlot(slot);
    }
  }

  /** After any run, a record that reads without the recovery flag survives every loss of power. */
  lemma SettledRecordsSurvive(codec: Codec, d: Disk, slot: Slot, pick: Pick)
    requires Reachable(codec, d) && !d.Recovery(slot)
    ensures d.PowerLoss(pick).Visible(slot) == d.Visible(slot)
  {
    EveryRunIsSound(codec, d);
    PowerLossIsHarmless(d, pick);
  }

  /** A listing names every published record. */
  lemma ListedRecords(d: Disk, provider: string, partition: Partition, io: Io)
    requires d.Aliases(provider, partition, io).Listed?
    ensures d.Current(provider).Aliases(partition) <= d.Aliases(provider, partition, io).aliases
  {
  }

  // ---- When a publication succeeds ----

  /**
   Without faults a publication that passes its checks succeeds exactly when
   the document may be written once the marker exists.
   */
  lemma FaultlessPublish(d: Disk, codec: Codec, provider: string, alias: string, record: Record)
    requires d.Refusal(codec, provider, alias, record, Faultless).None?
    ensures var slot := Slot(provider, record.Partition(), alias);
            var document := d.Current(provider).Put(alias, record);
            var obstacle := d.WriteMarker(slot, Mark.Pending, Completes).Obstacle(codec, document, true);
            var r := d.Publish(codec, provider, alias, record, Faultless);
            && (r.outcome == Done <==> obstacle.None?)
            && (obstacle.Some? ==> r.disk.documents == d.documents)
            && (obstacle == Some(PoolFull) ==> r.outcome == Failed(PersistenceUncertain) && r.disk.Recovery(slot))
  {
  }

  lemma ArmedNamespaces(d: Disk, slot: Slot)
    ensures d.WriteMarker(slot, Mark.Pending, Completes).Namespaces() == d.Namespaces() + {slot.provider}
  {
    var armed := d.WriteMarker(slot, Mark.Pending, Completes);
    assert slot in armed.markers && armed.markers[slot].visible != Absent;
    forall p ensures p in armed.Namespaces() <==> p in d.Namespaces() + {slot.provider} {
      if p in d.Namespaces() && !(p in d.documents && d.documents[p].visible.revision > 0) {
        var s :| s in d.markers && d.markers[s].visible != Absent && s.provider == p;
        assert s in armed.markers && armed.markers[s].visible != Absent;
      }
    }
  }

  lemma PutKeepsValid(document: Document, provider: string, alias: string, record: Record)
    requires document.Valid(provider) && record.Valid(provider, alias)
    requires document.Get(record.Partition(), alias).Some? || document.Count(record.Partition()) < RECORDS
    ensures document.Put(alias, record).Valid(provider)
  {
    match record
    case AccountRecord(a) => AccountsGrow(provider, document.oauth, alias, a);
    case KeyRecord(k) => KeysGrow(provider, document.keys, alias, k);
  }

  lemma AccountsGrow(provider: string, accounts: map<string, Account>, alias: string, account: Account)
    requires ValidAccounts(provider, accounts) && account.Valid(provider, alias)
    requires alias in accounts || |accounts| < RECORDS
    ensures ValidAccounts(provider, accounts[alias := account])
  {
    assert accounts[alias := account].Keys == accounts.Keys + {alias};
  }

  lemma KeysGrow(provider: string, keys: map<string, Key>, alias: string, key: Key)
    requires ValidKeys(provider, keys) && key.Valid(provider, alias)
    requires alias in keys || |keys| < RECORDS
    ensures ValidKeys(provider, keys[alias := key])
  {
    assert keys[alias := key].Keys == keys.Keys + {alias};
  }

  lemma FaultlessIsReadable(d: Disk, codec: Codec, provider: string, alias: string, record: Record)
    requires d.Refusal(codec, provider, alias, record, Faultless).None?
    ensures d.ReadError(provider, Faultless).None? && d.Current(provider).Valid(provider)
      && record.Valid(provider, alias)
    ensures d.Current(provider).Get(record.Partition(), alias).Some?
      || d.Current(provider).Count(record.Partition()) < RECORDS
  {
  }

  lemma UnwrittenDocument(d: Disk, provider: string)
    requires d.Sound() && d.Current(provider).revision == 0
    ensures d.Current(provider) == EmptyDocument(provider)
  {
    assert d.SoundFile(provider) && d.Current(provider) in d.DocumentFile(provider).Versions();
  }

  lemma FirstDocumentObstacle(d: Disk, codec: Codec, document: Document)
    requires document.Valid(document.provider) && document.revision == 0
    ensures d.Obstacle(codec, document, true)
            == if |d.Namespaces()| >= RECORDS then Some(PoolFull)
               else if codec.documentSize(Bump(document)) > DOCUMENT_BYTES then Some(Error.Storage)
               else None
  {
  }

  /**
   The store admits 64 namespaces, but a record publication arms its marker
   before the namespaces are counted, and the marker already counts. So the
   first record of a provider, when it fits into a document, can be published
   only beside at most 62 others: beside 63 it fails as uncertain and leaves the
   empty slot in recovery, on every try, while `ensure_namespace` still admits
   a provider without a marker.
   */
  lemma FirstRecordNeedsTwoFreeNamespaces(d: Disk, codec: Codec, provider: string, alias: string, record: Record)
    requires d.Sound() && d.Current(provider).revision == 0
    requires d.Refusal(codec, provider, alias, record, Faultless).None?
    ensures var slot := Slot(provider, record.Partition(), alias);
            var r := d.Publish(codec, provider, alias, record, Faultless);
            var full := |d.Namespaces() + {provider}| >= RECORDS;
            && (r.outcome == Done <==>
                  !full && codec.documentSize(Successor(d, provider, alias, record)) <= DOCUMENT_BYTES)
            && (full ==>
                  r.outcome == Failed(PersistenceUncertain) && r.disk.Recovery(slot) && r.disk.Visible(slot).None?)
    ensures d.EnsureNamespace(codec, provider, Faultless).outcome == Done <==>
              |d.Namespaces()| < RECORDS && codec.documentSize(Bump(d.Current(provider))) <= DOCUMENT_BYTES
  {
    var slot := Slot(provider, record.Partition(), alias);
    var document := d.Current(provider).Put(alias, record);
    var armed := d.WriteMarker(slot, Mark.Pending, Completes);
    CurrentProvider(d, provider);
    FaultlessPublish(d, codec, provider, alias, record);
    ArmedNamespaces(d, slot);
    FaultlessIsReadable(d, codec, provider, alias, record);
    PutKeepsValid(d.Current(provider), provider, alias, record);
    FirstDocumentObstacle(armed, codec, document);
    FirstDocumentObstacle(d, codec, d.Current(provider));
    UnwrittenDocument(d, provider);
  }
}
