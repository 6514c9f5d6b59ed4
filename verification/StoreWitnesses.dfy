/**
 Runs of the store: one that ends where a provider can be announced but not get
 its first record, and publications in a store of one record.
 */
module StoreWitnesses {
  import opened Prelude
  import opened Storage
  import opened Records
  import opened Store
  import opened Publication
  import opened StoreRuns

  /** Every record and every document fits. */
  const ROOMY := Codec(_ => 0, _ => 0)

  function Name(n: nat): string { seq(n, _ => 'a') }

  lemma NameIsProfile(n: nat)
    requires 1 <= n <= 64
    ensures ValidProfile(Name(n)) && Name(n) != "accounts" && Name(n) != "gateway"
  {
    assert "accounts"[1] != 'a' && "gateway"[0] != 'a';
    assert n > 1 ==> Name(n)[1] == 'a';
    assert Name(n)[0] == 'a';
  }

  function Names(n: nat): set<string> { set i | 1 <= i <= n :: Name(i) }

  lemma NextName(n: nat)
    requires n > 0
    ensures Name(n) !in Names(n - 1) && Names(n) == Names(n - 1) + {Name(n)}
  {
    forall i | 1 <= i < n ensures Name(i) != Name(n) {
      assert |Name(i)| == i && |Name(n)| == n;
    }
  }

  lemma {:induction false} CountNames(n: nat)
    ensures |Names(n)| == n
  {
    if n == 0 {
    } else {
      CountNames(n - 1);
      NextName(n);
    }
  }

  /** The store after the first `n` namespaces were announced, and nothing else was done. */
  function Crowd(n: nat): Disk {
    if n == 0 then EmptyDisk else Crowd(n - 1).EnsureNamespace(ROOMY, Name(n), Faultless).disk
  }

  function Announcements(n: nat): seq<Action> {
    seq(n, i requires 0 <= i < n => EnsureNamespace(Name(i + 1), Faultless))
  }

  lemma {:induction false} CrowdIsRun(n: nat)
    ensures Crowd(n) == StoreRuns.Run(EmptyDisk, ROOMY, Announcements(n))
  {
    hide Disk.EnsureNamespace, Name;
    if n == 0 {
    } else {
      CrowdIsRun(n - 1);
      assert Announcements(n)[..n - 1] == Announcements(n - 1);
    }
  }

  ghost predicate Announced(d: Disk, names: set<string>) {
    && d.markers == map[]
    && forall p :: (p in names ==> d.Current(p).revision > 0)
         && (p !in names ==> d.DocumentFile(p) == EmptyDisk.DocumentFile(p))
  }

  lemma AnnouncedNamespaces(d: Disk, names: set<string>)
    requires Announced(d, names)
    ensures d.Namespaces() == names
  {
    forall p ensures p in d.Namespaces() <==> p in names {
      assert d.Current(p).revision > 0 <==> p in names;
    }
  }

  lemma AnnouncementIsWrite(d: Disk, names: set<string>, name: string)
    requires Announced(d, names) && |names| < RECORDS && name !in names
    requires ValidProfile(name) && name != "accounts" && name != "gateway"
    ensures d.EnsureNamespace(ROOMY, name, Faultless).disk == d.WriteDocument(Bump(EmptyDocument(name)), Completes)
  {
    hide Disk.Namespaces, Disk.Obstacle, ValidProfile;
    var document := EmptyDocument(name);
    assert d.Current(name) == document && document.Valid(name);
    AnnouncedNamespaces(d, names);
    FirstDocumentObstacle(d, ROOMY, document);
  }

  lemma AnnounceOne(d: Disk, names: set<string>, name: string)
    requires Announced(d, names) && |names| < RECORDS && name !in names
    requires ValidProfile(name) && name != "accounts" && name != "gateway"
    ensures Announced(d.EnsureNamespace(ROOMY, name, Faultless).disk, names + {name})
  {
    hide Disk.EnsureNamespace;
    AnnouncementIsWrite(d, names, name);
  }

  lemma {:induction false} CrowdIsAnnounced(n: nat)
    requires n < RECORDS
    ensures Announced(Crowd(n), Names(n))
  {
    if n == 0 {
    } else {
      hide Announced, Disk.EnsureNamespace, ValidProfile;
      CrowdIsAnnounced(n - 1);
      CountNames(n - 1);
      NameIsProfile(n);
      NextName(n);
      AnnounceOne(Crowd(n - 1), Names(n - 1), Name(n));
    }
  }

  const NEWCOMER := NewAccount("z", "b", "c")

  lemma NewcomerIsNotRefused(d: Disk)
    requires d.Current("z") == EmptyDocument("z")
    ensures d.Refusal(ROOMY, "z", "b", AccountRecord(NEWCOMER), Faultless).None?
  {
    assert ValidProfile("z") && "z" != "accounts" && "z" != "gateway";
  }

  lemma NewcomerIsNew(n: nat)
    ensures "z" !in Names(n)
  {
    assert forall i :: 1 <= i ==> Name(i)[0] == 'a';
  }

  /**
   Some run leads to a store with 63 namespaces in which a provider can still be
   announced, but in which publishing its first record is reported uncertain
   and leaves the empty slot in recovery.
   */
  lemma RoomForANamespaceButNotForItsRecord()
    ensures exists d ::
              && Reachable(ROOMY, d) && |d.Namespaces()| == RECORDS - 1
              && d.EnsureNamespace(ROOMY, "z", Faultless).outcome == Done
              && var r := d.Publish(ROOMY, "z", "b", AccountRecord(NEWCOMER), Faultless);
                 r.outcome == Failed(PersistenceUncertain) && r.disk.Recovery(Slot("z", OAuth, "b"))
                 && r.disk.Visible(Slot("z", OAuth, "b")).None?
  {
    hide Crowd, Names, NEWCOMER, Disk.Publish, Disk.EnsureNamespace, Disk.Namespaces, Disk.Refusal, Disk.Sound;
    var d := Crowd(RECORDS - 1);
    CrowdIsRun(RECORDS - 1);
    assert Reachable(ROOMY, d);
    EveryRunIsSound(ROOMY, d);
    CrowdIsAnnounced(RECORDS - 1);
    AnnouncedNamespaces(d, Names(RECORDS - 1));
    CountNames(RECORDS - 1);
    NewcomerIsNew(RECORDS - 1);
    assert |d.Namespaces() + {"z"}| == RECORDS;
    NewcomerIsNotRefused(d);
    FirstRecordNeedsTwoFreeNamespaces(d, ROOMY, "z", "b", AccountRecord(NEWCOMER));
  }

  // ---- A store of one record ----

  const PROVIDER := "p"
  const ALIAS := "b"

  /** The last marker write fails before it replaced the marker. */
  const UNSETTLED := Faultless.(disarm := Uncertain(false))

  function Home(partition: Partition): Slot { Slot(PROVIDER, partition, ALIAS) }

  /** The store holds this document and at most this marker, set or not. */
  ghost predicate Alone(d: Disk, partition: Partition, document: Document, recovery: bool) {
    && d.Sound()
    && d.documents.Keys <= {PROVIDER} && d.markers.Keys <= {Home(partition)}
    && d.Current(PROVIDER) == document
    && d.Recovery(Home(partition)) == recovery
  }

  lemma EmptyIsAlone(partition: Partition)
    ensures Alone(EmptyDisk, partition, EmptyDocument(PROVIDER), false)
  {
    RunIsSound(ROOMY, []);
  }

  lemma ProviderIsValid()
    ensures ValidProfile(PROVIDER) && ValidAlias(ALIAS) && PROVIDER != "accounts" && PROVIDER != "gateway"
  {
  }

  lemma AloneIsReadable(d: Disk, partition: Partition, document: Document, recovery: bool, io: Io)
    requires Alone(d, partition, document, recovery) && io.readable
    ensures document.Valid(PROVIDER) && document.provider == PROVIDER && d.ReadError(PROVIDER, io).None?
  {
    hide Disk.Sound;
    ProviderIsValid();
    CurrentProvider(d, PROVIDER);
    AloneIsValid(d, partition, document, recovery);
  }

  lemma AloneIsValid(d: Disk, partition: Partition, document: Document, recovery: bool)
    requires Alone(d, partition, document, recovery)
    ensures document.Valid(PROVIDER)
  {
    hide Document.Valid;
    assert d.SoundFile(PROVIDER) && d.Current(PROVIDER) in d.DocumentFile(PROVIDER).Versions();
    assert EmptyDocument(PROVIDER).Valid(PROVIDER) by {
      EmptyIsValid();
    }
  }

  lemma EmptyIsValid()
    ensures EmptyDocument(PROVIDER).Valid(PROVIDER)
  {
    ProviderIsValid();
  }

  /** Nothing stands in the way of the document once its marker is set. */
  predicate Unobstructed(d: Disk, document: Document, record: Record) {
    var armed := d.WriteMarker(Home(record.Partition()), Mark.Pending, Completes);
    armed.Obstacle(ROOMY, document.Put(ALIAS, record), true).None?
  }

  /** The only record may be published, whatever the store's writes do to it. */
  lemma NothingRefuses(d: Disk, document: Document, recovery: bool, record: Record, io: Io)
    requires Alone(d, record.Partition(), document, recovery) && document.revision < 100 && io.readable
    requires record.Valid(PROVIDER, ALIAS)
    requires document.Get(record.Partition(), ALIAS).Some? || document.Count(record.Partition()) < RECORDS
    ensures d.Refusal(ROOMY, PROVIDER, ALIAS, record, io).None?
    ensures Unobstructed(d, document, record)
  {
    hide Document.Valid, Record.Valid, Disk.Namespaces, Disk.Sound;
    AloneIsReadable(d, record.Partition(), document, recovery, io);
    PutKeepsValid(document, PROVIDER, ALIAS, record);
    ArmedNamespaces(d, Home(record.Partition()));
    OneNamespace(d, record.Partition());
  }

  lemma OneNamespace(d: Disk, partition: Partition)
    requires d.documents.Keys <= {PROVIDER} && d.markers.Keys <= {Home(partition)}
    ensures |d.Namespaces() + {PROVIDER}| == 1
  {
    assert d.Namespaces() + {PROVIDER} == {PROVIDER};
  }

  /** Both files after a publication whose last marker write completes, or fails before the rename. */
  lemma BothWritten(d: Disk, document: Document, record: Record, io: Io)
    requires io in {Faultless, UNSETTLED} && d.Current(PROVIDER) == document && document.provider == PROVIDER
    requires d.Refusal(ROOMY, PROVIDER, ALIAS, record, io).None?
    requires Unobstructed(d, document, record)
    ensures var r := d.Publish(ROOMY, PROVIDER, ALIAS, record, io);
            && r.outcome == (if io == Faultless then Done else Failed(PersistenceUncertain))
            && r.disk.documents == d.documents[PROVIDER := File([], Bump(document.Put(ALIAS, record)))]
            && r.disk.markers.Keys == d.markers.Keys + {Home(record.Partition())}
            && r.disk.Recovery(Home(record.Partition())) == (io == UNSETTLED)
  {
    hide Disk.Refusal, Disk.Obstacle;
  }

  lemma AlonePublished(d: Disk, document: Document, recovery: bool, record: Record, io: Io)
    requires Alone(d, record.Partition(), document, recovery) && document.revision < 100 && io in {Faultless, UNSETTLED}
    requires record.Valid(PROVIDER, ALIAS)
    requires document.Get(record.Partition(), ALIAS).Some? || document.Count(record.Partition()) < RECORDS
    ensures var r := d.Publish(ROOMY, PROVIDER, ALIAS, record, io);
            && r.outcome == (if io == Faultless then Done else Failed(PersistenceUncertain))
            && Alone(r.disk, record.Partition(), Bump(document.Put(ALIAS, record)), io == UNSETTLED)
            && r.disk.DocumentFile(PROVIDER).Durable()
  {
    hide Disk.Publish, Disk.Refusal, Disk.Obstacle, Disk.Sound, Record.Valid;
    AloneIsReadable(d, record.Partition(), document, recovery, io);
    NothingRefuses(d, document, recovery, record, io);
    BothWritten(d, document, record, io);
    PublishKeepsSound(d, ROOMY, PROVIDER, ALIAS, record, io);
  }
}
