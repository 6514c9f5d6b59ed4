/** What each key mutation leaves behind when it is done, when it gets as far as publishing, and what is lent then. */
module KeyEffects {
  import opened Prelude
  import opened Records
  import opened Store
  import opened Publication
  import opened ApiKeys
  import opened KeyGuarantees

  /** The step publishes a key, and the publication is done. */
  predicate Succeeds(k: Keyring, w: World, e: Event) {
    !e.Elsewhere? && PlanOf(w, e).Change? && Apply(k, w, e).outcome == Done
  }

  /** Only this key can survive, and it reads without the recovery flag. */
  ghost predicate Settles(d: Disk, domain: string, alias: string, key: Key) {
    OnlyKey(d, domain, alias, key) && !d.Recovery(SlotOf(domain, alias)) && KeyAt(d, domain, alias) == Some(key)
  }

  lemma SuccessSettles(k: Keyring, w: World, e: Event)
    requires Inv(w) && Succeeds(k, w, e)
    ensures Settles(Apply(k, w, e).world.disk, e.domain, e.alias, PlanOf(w, e).key)
  {
    hide Disk.Publish, PlanOf;
    var key := PlanOf(w, e).key;
    ChangeIsPublish(k, w, e);
    PublishHonest(w.disk, k.codec, e.domain, e.alias, KeyRecord(key), e.io);
    PublishChangesKey(k, w.disk, e.domain, e.alias, key, e.io);
    assert Apply(k, w, e).world.disk.Current(e.domain) in Apply(k, w, e).world.disk.DocumentFile(e.domain).Versions();
  }

  // ---- Lending ----

  /** A binding pins the visible key; one that must be usable exists only for an enabled key that is settled. */
  lemma BindIsExact(k: Keyring, d: Disk, domain: string, alias: string, requireEnabled: bool)
    ensures var key, b := KeyAt(d, domain, alias), Bind(k, d, domain, alias, requireEnabled);
            && (b.Some? <==>
                  key.Some? && (requireEnabled ==> key.value.state == Enabled && !d.Recovery(SlotOf(domain, alias))))
            && (b.Some? ==> Pins(k, b.value, key.value) && b.value.domain == domain && b.value.alias == alias)
  {
  }

  /** The binding was made for this very record. */
  predicate Pins(k: Keyring, b: Binding, key: Key) {
    b.recordId == key.recordId && b.epoch == key.epoch && b.generation == key.generation
    && b.material == k.Digest(key.secret)
  }

  /** A borrow lends the stored secret exactly when the key is settled, enabled, and the very record that is pinned. */
  lemma BorrowIsExact(k: Keyring, d: Disk, b: Binding)
    ensures var key := KeyAt(d, b.domain, b.alias);
            && (Borrow(k, d, b).Some? <==>
                  && key.Some? && !d.Recovery(SlotOf(b.domain, b.alias)) && key.value.state == Enabled
                  && Pins(k, b, key.value) && key.value.secret.Some?)
            && (Borrow(k, d, b).Some? ==> Borrow(k, d, b) == key.value.secret)
  {
  }

  /** The key can be bound for use, and the binding lends this secret. */
  predicate Lends(k: Keyring, d: Disk, domain: string, alias: string, secret: string) {
    var b := Bind(k, d, domain, alias, true);
    b.Some? && Borrow(k, d, b.value) == Some(secret)
  }

  // ---- When a mutation publishes ----

  /** A key is added exactly under new identifiers, to an alias that has no key and is settled. */
  lemma AddPublishes(w: World, domain: string, alias: string, secret: string, recordId: string, epoch: string, io: Io)
    requires recordId !in w.ids && epoch !in w.ids && recordId != epoch
    ensures var plan := PlanOf(w, Add(domain, alias, secret, recordId, epoch, io));
            && (plan.Change? <==> !w.disk.Recovery(SlotOf(domain, alias)) && KeyAt(w.disk, domain, alias).None?)
            && (w.disk.Recovery(SlotOf(domain, alias)) ==> plan == Refuse(PersistenceUncertain))
            && (!w.disk.Recovery(SlotOf(domain, alias)) && KeyAt(w.disk, domain, alias).Some? ==>
                  plan == Refuse(KeyExists))
  {
  }

  /**
   Any other mutation publishes exactly on the current revision of a key that
   can be counted up; to enable or disable it, the key must be settled and not
   removed. A missing key and a stale revision have errors of their own.
   */
  lemma MutationPublishes(w: World, e: Event)
    requires Mutates(e) && e.epoch !in w.ids
    ensures var key, settled := KeyAt(w.disk, e.domain, e.alias), !w.disk.Recovery(SlotOf(e.domain, e.alias));
            && (PlanOf(w, e).Change? <==>
                  && key.Some? && key.value.revision == e.revision && e.revision < MAX_U64
                  && (e.SetEnabled? ==> settled && key.value.secret.Some?)
                  && (!e.SetEnabled? ==> key.value.generation < MAX_U64))
            && (key.Some? && key.value.revision != e.revision ==> PlanOf(w, e) == Refuse(Superseded))
            && (key.None? ==>
                  PlanOf(w, e)
                  == if e.Remove? && !settled && e.revision == 0 then ClearMarker else Refuse(KeyUnavailable))
            && (e.SetEnabled? && key.Some? && key.value.revision == e.revision && !settled ==>
                  PlanOf(w, e) == Refuse(PersistenceUncertain))
  {
  }

  // ---- What a mutation leaves ----

  /** The next revision of the same record, under a new epoch; the generation counts new material only. */
  predicate Follows(was: Key, key: Key, epoch: string, material: bool) {
    && key.domain == was.domain && key.alias == was.alias && key.recordId == was.recordId
    && key.epoch == epoch && key.revision == was.revision + 1
    && key.generation == (if material then was.generation + 1 else was.generation)
  }

  lemma SettledEnabledLends(k: Keyring, d: Disk, domain: string, alias: string, key: Key, secret: string)
    requires Settles(d, domain, alias, key) && key.state == Enabled && key.secret == Some(secret)
    ensures Lends(k, d, domain, alias, secret)
  {
  }

  /** An added key is the first revision of a new record, and its secret is lent. */
  lemma AddedKeyLends(
      k: Keyring, w: World, domain: string, alias: string, secret: string, recordId: string, epoch: string, io: Io)
    requires Inv(w) && Succeeds(k, w, Add(domain, alias, secret, recordId, epoch, io))
    ensures var d := Apply(k, w, Add(domain, alias, secret, recordId, epoch, io)).world.disk;
            && Lends(k, d, domain, alias, secret)
            && Settles(d, domain, alias, Key(domain, alias, recordId, epoch, 1, 1, Enabled, Some(secret)))
  {
    hide Disk.Publish, Apply, Lends, Settles;
    var e := Add(domain, alias, secret, recordId, epoch, io);
    SuccessSettles(k, w, e);
    SettledEnabledLends(k, Apply(k, w, e).world.disk, domain, alias, PlanOf(w, e).key, secret);
  }

  /** A replaced key lends the new secret, under the next generation. */
  lemma ReplacedKeyLends(
      k: Keyring, w: World, domain: string, alias: string, revision: nat, secret: string, epoch: string, io: Io)
    requires Inv(w) && Succeeds(k, w, Event.Replace(domain, alias, revision, secret, epoch, io))
    ensures var e := Event.Replace(domain, alias, revision, secret, epoch, io);
            var d := Apply(k, w, e).world.disk;
            && Lends(k, d, domain, alias, secret)
            && KeyAt(w.disk, domain, alias).Some? && KeyAt(d, domain, alias).Some?
            && Settles(d, domain, alias, KeyAt(d, domain, alias).value)
            && KeysFollow(w.disk, d, domain, alias, epoch, true)
  {
    hide Disk.Publish, Apply, Lends, Settles;
    var e := Event.Replace(domain, alias, revision, secret, epoch, io);
    SuccessSettles(k, w, e);
    StoredKeyIsValid(w, domain, alias);
    SettledReads(Apply(k, w, e).world.disk, domain, alias, PlanOf(w, e).key);
    SettledEnabledLends(k, Apply(k, w, e).world.disk, domain, alias, PlanOf(w, e).key, secret);
  }

  /** The visible key follows the one that was visible before. */
  predicate KeysFollow(d: Disk, d': Disk, domain: string, alias: string, epoch: string, material: bool) {
    && KeyAt(d, domain, alias).Some? && KeyAt(d', domain, alias).Some?
    && Follows(KeyAt(d, domain, alias).value, KeyAt(d', domain, alias).value, epoch, material)
  }

  lemma SettledReads(d: Disk, domain: string, alias: string, key: Key)
    requires Settles(d, domain, alias, key)
    ensures KeyAt(d, domain, alias) == Some(key)
  {
  }

  /** A key that is enabled lends the secret that it had before. */
  lemma EnabledKeyLends(k: Keyring, w: World, domain: string, alias: string, revision: nat, epoch: string, io: Io)
    requires Inv(w) && Succeeds(k, w, SetEnabled(domain, alias, revision, true, epoch, io))
    ensures var e := SetEnabled(domain, alias, revision, true, epoch, io);
            var d, was := Apply(k, w, e).world.disk, KeyAt(w.disk, domain, alias);
            && was.Some? && was.value.secret.Some?
            && Lends(k, d, domain, alias, was.value.secret.value)
            && KeyAt(d, domain, alias).Some? && Settles(d, domain, alias, KeyAt(d, domain, alias).value)
            && KeysFollow(w.disk, d, domain, alias, epoch, false)
  {
    hide Disk.Publish, Apply, Lends, Settles;
    var e := SetEnabled(domain, alias, revision, true, epoch, io);
    SuccessSettles(k, w, e);
    StoredKeyIsValid(w, domain, alias);
    var key := PlanOf(w, e).key;
    SettledReads(Apply(k, w, e).world.disk, domain, alias, key);
    SettledEnabledLends(k, Apply(k, w, e).world.disk, domain, alias, key, key.secret.value);
  }

  /** Nothing can be bound for use, and no binding borrows. */
  ghost predicate Idles(k: Keyring, d: Disk, domain: string, alias: string) {
    && Bind(k, d, domain, alias, true).None?
    && forall b: Binding :: b.domain == domain && b.alias == alias ==> Borrow(k, d, b).None?
  }

  /** A key that is disabled keeps its secret, but lends it to nobody. */
  lemma DisabledKeyIdles(k: Keyring, w: World, domain: string, alias: string, revision: nat, epoch: string, io: Io)
    requires Inv(w) && Succeeds(k, w, SetEnabled(domain, alias, revision, false, epoch, io))
    ensures var e := SetEnabled(domain, alias, revision, false, epoch, io);
            var d, was := Apply(k, w, e).world.disk, KeyAt(w.disk, domain, alias);
            && Idles(k, d, domain, alias) && KeyAt(d, domain, alias).Some?
            && Settles(d, domain, alias, KeyAt(d, domain, alias).value)
            && was.Some? && KeyAt(d, domain, alias).value.secret == was.value.secret
            && KeyAt(d, domain, alias).value.state == Disabled
            && KeysFollow(w.disk, d, domain, alias, epoch, false)
  {
    hide Disk.Publish, Apply;
    var e := SetEnabled(domain, alias, revision, false, epoch, io);
    SuccessSettles(k, w, e);
    StoredKeyIsValid(w, domain, alias);
  }

  /** A removed key is a tombstone: its secret is in no version that may survive. */
  lemma RemovedKeyIdles(k: Keyring, w: World, domain: string, alias: string, revision: nat, epoch: string, io: Io)
    requires Inv(w) && Succeeds(k, w, Remove(domain, alias, revision, epoch, io))
    ensures var e := Remove(domain, alias, revision, epoch, io);
            var d := Apply(k, w, e).world.disk;
            && Idles(k, d, domain, alias) && KeyAt(d, domain, alias).Some?
            && Settles(d, domain, alias, KeyAt(d, domain, alias).value)
            && KeyAt(d, domain, alias).value.secret.None? && KeyAt(d, domain, alias).value.state == Removed
            && KeysFollow(w.disk, d, domain, alias, epoch, true)
  {
    hide Disk.Publish, Apply;
    var e := Remove(domain, alias, revision, epoch, io);
    SuccessSettles(k, w, e);
    StoredKeyIsValid(w, domain, alias);
  }

  /**
   A key that was disabled or removed is borrowed by no binding, old or new, until
   another mutation has taken it to a later revision, in any run.
   */
  lemma IdleUntilMutated(k: Keyring, w: World, e: Event, w': World, b: Binding)
    requires Reachable(k, w) && Succeeds(k, w, e) && (e.Remove? || (e.SetEnabled? && !e.enabled))
    requires Leads(k, Apply(k, w, e).world, w') && b.domain == e.domain && b.alias == e.alias
    requires Borrow(k, w'.disk, b).Some?
    ensures KeyAt(Apply(k, w, e).world.disk, e.domain, e.alias).Some? && KeyAt(w'.disk, e.domain, e.alias).Some?
    ensures KeyAt(w'.disk, e.domain, e.alias).value.revision
            > KeyAt(Apply(k, w, e).world.disk, e.domain, e.alias).value.revision
  {
    hide Disk.Publish, Apply;
    ReachableIsInOrder(k, w);
    StepKeepsInv(k, w, e);
    SuccessSettles(k, w, e);
    var w1, key := Apply(k, w, e).world, PlanOf(w, e).key;
    var events :| w' == Run(k, w1, events);
    RunKeepsAtLeast(k, w1, events, e.domain, e.alias, key);
    assert w'.disk.Current(e.domain) in w'.disk.DocumentFile(e.domain).Versions();
  }
}
