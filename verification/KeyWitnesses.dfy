/** A run of the key lifecycle in which a mutation that did not settle is undone by a loss of power. */
module KeyWitnesses {
  import opened Prelude
  import opened Storage
  import opened Records
  import opened Store
  import Publication
  import opened StoreRuns
  import opened StoreWitnesses
  import opened ApiKeys
  import opened KeyGuarantees

  const RING := Keyring(ROOMY, s => s)

  function Id(digit: char): string { seq(32, _ => digit) }

  function KeyDocument(key: Option<Key>, revision: nat): Document {
    Document(PROVIDER, None, revision, map[], if key.Some? then map[ALIAS := key.value] else map[], map[])
  }

  /** The store holds at most this one key, written `revision` times, perhaps in recovery. */
  ghost predicate Holds(d: Disk, key: Option<Key>, revision: nat, recovery: bool) {
    Alone(d, ApiKey, KeyDocument(key, revision), recovery)
  }

  const ADDED := Key(PROVIDER, ALIAS, Id('0'), Id('1'), 1, 1, Enabled, Some("s"))
  const LOST := Key(PROVIDER, ALIAS, Id('0'), Id('2'), 2, 2, Enabled, Some("t"))
  const REPLACED := Key(PROVIDER, ALIAS, Id('0'), Id('3'), 2, 2, Enabled, Some("u"))

  /** The rename happens, but its durability is not known. */
  const RENAMED := Faultless.(commit := Uncertain(true))

  const ADD := Add(PROVIDER, ALIAS, "s", Id('0'), Id('1'), Faultless)
  const LOSE := Event.Replace(PROVIDER, ALIAS, 1, "t", Id('2'), RENAMED)
  const CRASH := Elsewhere(PowerLoss(Pick(map[PROVIDER := 0], map[])))
  const AGAIN := Event.Replace(PROVIDER, ALIAS, 1, "u", Id('3'), Faultless)

  lemma KeysAreValid()
    ensures ADDED.Valid(PROVIDER, ALIAS) && LOST.Valid(PROVIDER, ALIAS) && REPLACED.Valid(PROVIDER, ALIAS)
  {
  }

  lemma IdsDiffer()
    ensures |{Id('0'), Id('1'), Id('2'), Id('3')}| == 4
  {
    assert Id('0')[0] == '0' && Id('1')[0] == '1' && Id('2')[0] == '2' && Id('3')[0] == '3';
  }

  /** A settled publication of a key. */
  lemma Published(d: Disk, key: Option<Key>, revision: nat, recovery: bool, next: Key)
    requires Holds(d, key, revision, recovery) && revision < 100 && next.Valid(PROVIDER, ALIAS)
    ensures var r := d.Publish(ROOMY, PROVIDER, ALIAS, KeyRecord(next), Faultless);
            && r.outcome == Done && Holds(r.disk, Some(next), revision + 1, false)
            && r.disk.DocumentFile(PROVIDER).Durable()
  {
    hide Disk.Publish, Alone, Key.Valid;
    var document := KeyDocument(key, revision);
    AlonePublished(d, document, recovery, KeyRecord(next), Faultless);
    assert Bump(document.Put(ALIAS, KeyRecord(next))) == KeyDocument(Some(next), revision + 1);
  }

  lemma Added()
    ensures var s := Apply(RING, ApiKeys.Start, ADD);
            && Holds(s.world.disk, Some(ADDED), 1, false) && s.world.disk.DocumentFile(PROVIDER).Durable()
            && s.world.ids == {Id('0'), Id('1')}
  {
    hide Disk.Publish, Alone, Key.Valid, Id;
    KeysAreValid();
    IdsDiffer();
    EmptyIsAlone(ApiKey);
    Published(EmptyDisk, None, 0, false, ADDED);
  }

  /** The replacement is visible but in recovery, and the old document may come back. */
  lemma Lost(d: Disk)
    requires Holds(d, Some(ADDED), 1, false) && d.DocumentFile(PROVIDER).Durable()
    ensures var r := d.Publish(ROOMY, PROVIDER, ALIAS, KeyRecord(LOST), RENAMED);
            && r.outcome == Failed(PersistenceUncertain)
            && r.disk.documents == d.documents[PROVIDER :=
                 File([KeyDocument(Some(ADDED), 1)], KeyDocument(Some(LOST), 2))]
            && r.disk.markers == d.markers[Home(ApiKey) := File([], Mark.Pending)] && r.disk.Sound()
  {
    hide Disk.Refusal, Disk.Obstacle, Disk.Sound, Key.Valid;
    var document := KeyDocument(Some(ADDED), 1);
    KeysAreValid();
    NothingRefuses(d, document, false, KeyRecord(LOST), RENAMED);
    Publication.PublishKeepsSound(d, ROOMY, PROVIDER, ALIAS, KeyRecord(LOST), RENAMED);
    assert Bump(document.Put(ALIAS, KeyRecord(LOST))) == KeyDocument(Some(LOST), 2);
    assert d.DocumentFile(PROVIDER) == File([], document) && File([], document).Versions() == [document];
  }

  lemma Losing(w: World)
    requires Holds(w.disk, Some(ADDED), 1, false) && w.disk.DocumentFile(PROVIDER).Durable()
      && w.ids == {Id('0'), Id('1')}
    ensures PlanOf(w, LOSE) == Change(LOST)
    ensures var s := Apply(RING, w, LOSE);
            && s.outcome == Failed(PersistenceUncertain) && s.world.ids == w.ids + {Id('2')}
            && s.world.disk.documents
               == w.disk.documents[PROVIDER := File([KeyDocument(Some(ADDED), 1)], KeyDocument(Some(LOST), 2))]
            && s.world.disk.markers == w.disk.markers[Home(ApiKey) := File([], Mark.Pending)] && s.world.disk.Sound()
  {
    hide Disk.Publish, Disk.Sound, Id;
    IdsDiffer();
    assert KeyAt(w.disk, PROVIDER, ALIAS) == Some(ADDED);
    Lost(w.disk);
  }

  /** The loss of power brings the old document back; the marker is durable. */
  lemma Crashing(d: Disk)
    requires d.documents.Keys <= {PROVIDER} && d.markers.Keys <= {Home(ApiKey)} && d.Sound() && d.Recovery(Home(ApiKey))
    requires d.MarkerFile(Home(ApiKey)).Durable()
    requires d.DocumentFile(PROVIDER) == File([KeyDocument(Some(ADDED), 1)], KeyDocument(Some(LOST), 2))
    ensures Holds(Act(d, ROOMY, CRASH.action), Some(ADDED), 1, true)
  {
    hide Disk.Sound;
    Publication.PowerLossIsHarmless(d, CRASH.action.pick);
  }

  lemma Again(w: World)
    requires Holds(w.disk, Some(ADDED), 1, true) && w.ids == {Id('0'), Id('1'), Id('2')}
    ensures PlanOf(w, AGAIN) == Change(REPLACED) && TookEffect(RING, w, AGAIN) && Apply(RING, w, AGAIN).outcome == Done
  {
    hide Disk.Publish, Disk.Sound, Id, Key.Valid;
    IdsDiffer();
    KeysAreValid();
    assert KeyAt(w.disk, PROVIDER, ALIAS) == Some(ADDED);
    Published(w.disk, Some(ADDED), 1, true, REPLACED);
  }

  lemma AddedIsReachable()
    ensures KeyGuarantees.Reachable(RING, Apply(RING, ApiKeys.Start, ADD).world)
  {
    assert [ADD][..0] == [];
    assert Apply(RING, ApiKeys.Start, ADD).world == ApiKeys.Run(RING, ApiKeys.Start, [ADD]);
  }

  /**
   A mutation that ends uncertain may be visible, but in recovery: then a loss of
   power can bring the old key back, and its revision is good for another
   mutation, which takes effect.
   */
  lemma UnsettledRevisionReturns()
    ensures exists w ::
              && KeyGuarantees.Reachable(RING, w)
              && var lost, again := Apply(RING, w, LOSE), Apply(RING, Apply(RING, w, LOSE).world, CRASH).world;
                 && lost.outcome == Failed(PersistenceUncertain)
                 && KeyAt(lost.world.disk, PROVIDER, ALIAS) == Some(LOST)
                 && TookEffect(RING, again, AGAIN) && LOSE.revision == AGAIN.revision
  {
    hide Apply, Alone, TookEffect, Id, PlanOf, KeyGuarantees.Reachable, Disk.Sound;
    var w := Apply(RING, ApiKeys.Start, ADD).world;
    Added();
    AddedIsReachable();
    AloneFiles(w.disk, KeyDocument(Some(ADDED), 1), false);
    Losing(w);
    var lost := Apply(RING, w, LOSE).world;
    assert KeyAt(lost.disk, PROVIDER, ALIAS) == Some(LOST);
    Crashing(lost.disk);
    CrashIsAct(lost);
    Again(Apply(RING, lost, CRASH).world);
  }

  lemma CrashIsAct(w: World)
    ensures Apply(RING, w, CRASH).world == w.(disk := Act(w.disk, ROOMY, CRASH.action))
  {
  }

  lemma AloneFiles(d: Disk, document: Document, recovery: bool)
    requires Alone(d, ApiKey, document, recovery)
    ensures d.documents.Keys <= {PROVIDER} && d.markers.Keys <= {Home(ApiKey)}
  {
  }
}
