/** What the key lifecycle promises over every run. */
module KeyGuarantees {
  import opened Prelude
  import opened Records
  import opened Store
  import opened Publication
  import StoreRuns
  import opened ApiKeys

  /** The key that a version of the domain's document holds under the alias. */
  function KeyIn(v: Document, alias: string): Option<Key> {
    if alias in v.keys then Some(v.keys[alias]) else None
  }

  ghost predicate Inv(w: World) {
    && w.disk.Sound()
    && forall p, v, a :: v in w.disk.DocumentFile(p).Versions() && a in v.keys ==>
         Known(v.keys[a], w.ids)
  }

  /** Every surviving version of the alias was there before, or holds the planned key. */
  ghost predicate Follows(d: Disk, d': Disk, domain: string, alias: string, plan: Plan) {
    forall v :: v in d'.DocumentFile(domain).Versions() ==>
      (exists u :: u in d.DocumentFile(domain).Versions() && KeyIn(u, alias) == KeyIn(v, alias))
      || (plan.Change? && KeyIn(v, alias) == Some(plan.key))
  }

  /** The step is a mutation of this very key. */
  predicate On(e: Event, domain: string, alias: string) { !e.Elsewhere? && e.domain == domain && e.alias == alias }

  lemma ReplacesFollows(d: Disk, d': Disk, next: Document, domain: string, alias: string, plan: Plan)
    requires Replaces(d, d', next)
    requires next.provider == domain ==>
               KeyIn(next, alias) == KeyIn(d.Current(domain), alias)
                 || (plan.Change? && KeyIn(next, alias) == Some(plan.key))
    ensures Follows(d, d', domain, alias, plan)
  {
    assert d.Current(domain) in d.DocumentFile(domain).Versions();
  }

  lemma StillFollows(d: Disk, d': Disk, domain: string, alias: string, plan: Plan)
    requires forall v :: v in d'.DocumentFile(domain).Versions() ==> v in d.DocumentFile(domain).Versions()
    ensures Follows(d, d', domain, alias, plan)
  {
  }

  lemma AccountFollows(
      k: Keyring, d: Disk, provider: string, a: string, record: Record, io: Io,
      domain: string, alias: string, plan: Plan)
    requires d.Sound() && record.AccountRecord?
    ensures var d' := d.Publish(k.codec, provider, a, record, io).disk;
            && Follows(d, d', domain, alias, plan) && KeyAt(d', domain, alias) == KeyAt(d, domain, alias)
            && d'.MarkerFile(SlotOf(domain, alias)) == d.MarkerFile(SlotOf(domain, alias))
  {
    hide Disk.Publish, Disk.Sound, Disk.Armed, Document.Valid;
    CurrentProvider(d, provider);
    PublishShape(d, k.codec, provider, a, record, io);
    ReplacesFollows(
      d, d.Publish(k.codec, provider, a, record, io).disk, Successor(d, provider, a, record), domain, alias, plan);
  }

  lemma SharedFollows(k: Keyring, d: Disk, action: StoreRuns.Action, domain: string, alias: string, plan: Plan)
    requires d.Sound() && (action.EnsureNamespace? || action.IssueHostId? || action.SetPool?)
    ensures var d' := StoreRuns.Act(d, k.codec, action);
            && Follows(d, d', domain, alias, plan) && KeyAt(d', domain, alias) == KeyAt(d, domain, alias)
            && d'.MarkerFile(SlotOf(domain, alias)) == d.MarkerFile(SlotOf(domain, alias))
  {
    hide StoreRuns.Act, Disk.Sound;
    StoreRuns.SharedWriters(d, k.codec, action);
    var d' := StoreRuns.Act(d, k.codec, action);
    var next: Document :| Replaces(d, d', next) && next.provider == action.provider
      && next.oauth == d.Current(action.provider).oauth && next.keys == d.Current(action.provider).keys;
    ReplacesFollows(d, d', next, domain, alias, plan);
  }

  lemma OutsideFollows(k: Keyring, d: Disk, action: StoreRuns.Action, domain: string, alias: string, plan: Plan)
    requires d.Sound() && ApiKeys.Outside(action) && !action.PowerLoss?
    ensures var d' := StoreRuns.Act(d, k.codec, action);
            && Follows(d, d', domain, alias, plan) && KeyAt(d', domain, alias) == KeyAt(d, domain, alias)
            && d'.MarkerFile(SlotOf(domain, alias)) == d.MarkerFile(SlotOf(domain, alias))
  {
    if action.Publish? {
      AccountFollows(k, d, action.provider, action.alias, action.record, action.io, domain, alias, plan);
    } else if action.ClearUnpublished? {
      ClearKeepsSound(d, action.slot, action.io);
    } else {
      SharedFollows(k, d, action, domain, alias, plan);
    }
  }

  lemma ElsewhereFollows(k: Keyring, w: World, e: Event, domain: string, alias: string)
    requires Inv(w) && e.Elsewhere?
    ensures var w' := Apply(k, w, e).world;
            && w'.disk.Sound() && Follows(w.disk, w'.disk, domain, alias, PlanOf(w, e))
            && (!e.action.PowerLoss? ==>
                  && KeyAt(w'.disk, domain, alias) == KeyAt(w.disk, domain, alias)
                  && w'.disk.MarkerFile(SlotOf(domain, alias)) == w.disk.MarkerFile(SlotOf(domain, alias)))
  {
    var d' := Apply(k, w, e).world.disk;
    if !ApiKeys.Outside(e.action) {
      StillFollows(w.disk, d', domain, alias, PlanOf(w, e));
    } else {
      StoreRuns.ActKeepsSound(w.disk, k.codec, e.action);
      if e.action.PowerLoss? {
        LossKeepsAVersion(w.disk, e.action.pick, domain);
        StillFollows(w.disk, d', domain, alias, PlanOf(w, e));
      } else {
        OutsideFollows(k, w.disk, e.action, domain, alias, PlanOf(w, e));
      }
    }
  }

  /** A publication leaves every other key of every domain as it was. */
  lemma PublishSparesOthers(
      k: Keyring, d: Disk, provider: string, a: string, key: Key, io: Io, domain: string, alias: string)
    requires d.Sound() && (provider != domain || a != alias)
    ensures var d' := d.Publish(k.codec, provider, a, KeyRecord(key), io).disk;
            && Follows(d, d', domain, alias, Refuse(KeyExists))
            && KeyAt(d', domain, alias) == KeyAt(d, domain, alias)
            && d'.MarkerFile(SlotOf(domain, alias)) == d.MarkerFile(SlotOf(domain, alias))
  {
    hide Disk.Publish, Disk.Sound, Disk.Armed, Document.Valid;
    var record := KeyRecord(key);
    var next := Successor(d, provider, a, record);
    var d' := d.Publish(k.codec, provider, a, record, io).disk;
    CurrentProvider(d, provider);
    PublishShape(d, k.codec, provider, a, record, io);
    assert next.keys == d.Current(provider).keys[a := key];
    ReplacesFollows(d, d', next, domain, alias, Refuse(KeyExists));
    assert KeyAt(d', domain, alias) == KeyAt(d, domain, alias);
  }

  ghost predicate OnlyKey(d: Disk, domain: string, alias: string, key: Key) {
    forall v :: v in d.DocumentFile(domain).Versions() ==> KeyIn(v, alias) == Some(key)
  }

  /**
   A publication of this key leaves the old one or the new one visible, and
   keeps an armed marker until only the new one can survive.
   */
  lemma PublishChangesKey(k: Keyring, d: Disk, domain: string, alias: string, key: Key, io: Io)
    requires d.Sound()
    ensures var r := d.Publish(k.codec, domain, alias, KeyRecord(key), io);
            && Follows(d, r.disk, domain, alias, Change(key))
            && (KeyAt(r.disk, domain, alias) == KeyAt(d, domain, alias) || KeyAt(r.disk, domain, alias) == Some(key))
            && (r.outcome == Done ==> OnlyKey(r.disk, domain, alias, key))
            && (d.Armed(SlotOf(domain, alias)) ==>
                  r.disk.Armed(SlotOf(domain, alias)) || OnlyKey(r.disk, domain, alias, key))
  {
    hide Disk.Sound, Document.Valid, Disk.Bracket, Disk.Obstacle, Disk.Refusal;
    var record := KeyRecord(key);
    var next := Successor(d, domain, alias, record);
    var d' := d.Publish(k.codec, domain, alias, record, io).disk;
    CurrentProvider(d, domain);
    PublishShape(d, k.codec, domain, alias, record, io);
    PublishHonest(d, k.codec, domain, alias, record, io);
    assert next.keys == d.Current(domain).keys[alias := key];
    ReplacesFollows(d, d', next, domain, alias, Change(key));
    if d.Refusal(k.codec, domain, alias, record, io).None? && d.Armed(SlotOf(domain, alias)) {
      PublishIsBracket(d, k.codec, domain, alias, record, io);
      var document := d.Current(domain).Put(alias, record);
      var obstacle :| d.Publish(k.codec, domain, alias, record, io)
        == d.Bracket(SlotOf(domain, alias), document, obstacle, io);
      BracketStaysArmed(d, SlotOf(domain, alias), document, obstacle, io);
    }
  }

  lemma ChangeIsPublish(k: Keyring, w: World, e: Event)
    requires Inv(w) && PlanOf(w, e).Change?
    ensures var r := w.disk.Publish(k.codec, e.domain, e.alias, KeyRecord(PlanOf(w, e).key), e.io);
            Apply(k, w, e).world.disk == r.disk && Apply(k, w, e).outcome == r.outcome && r.disk.Sound()
  {
    PublishKeepsSound(w.disk, k.codec, e.domain, e.alias, KeyRecord(PlanOf(w, e).key), e.io);
  }

  lemma ClearFollows(k: Keyring, w: World, e: Event, domain: string, alias: string)
    requires Inv(w) && !e.Elsewhere? && !PlanOf(w, e).Change?
    ensures var w' := Apply(k, w, e).world;
            && w'.disk.Sound() && w'.disk.documents == w.disk.documents
            && (w'.disk.MarkerFile(SlotOf(domain, alias)) != w.disk.MarkerFile(SlotOf(domain, alias)) ==>
                  forall v :: v in w'.disk.DocumentFile(domain).Versions() ==> KeyIn(v, alias).None?)
  {
    if PlanOf(w, e).ClearMarker? {
      ClearKeepsSound(w.disk, SlotOf(e.domain, e.alias), e.io);
      assert forall v: Document :: v.Get(ApiKey, alias).None? ==> KeyIn(v, alias).None?;
    }
  }

  lemma StepFollows(k: Keyring, w: World, e: Event, domain: string, alias: string)
    requires Inv(w)
    ensures Apply(k, w, e).world.disk.Sound()
    ensures var plan := if On(e, domain, alias) then PlanOf(w, e) else Refuse(KeyExists);
            Follows(w.disk, Apply(k, w, e).world.disk, domain, alias, plan)
  {
    if e.Elsewhere? {
      ElsewhereFollows(k, w, e, domain, alias);
    } else if PlanOf(w, e).Change? {
      ChangeIsPublish(k, w, e);
      if On(e, domain, alias) {
        PublishChangesKey(k, w.disk, domain, alias, PlanOf(w, e).key, e.io);
      } else {
        PublishSparesOthers(k, w.disk, e.domain, e.alias, PlanOf(w, e).key, e.io, domain, alias);
      }
    } else {
      ClearFollows(k, w, e, domain, alias);
    }
  }

  /** A published key carries the identifiers drawn for it, and otherwise those it had. */
  lemma PlanIdentifiers(w: World, e: Event)
    requires Inv(w) && PlanOf(w, e).Change?
    ensures PlanOf(w, e).key.epoch !in w.ids
    ensures PlanOf(w, e).key.epoch in w.ids + Drawn(e) && PlanOf(w, e).key.recordId in w.ids + Drawn(e)
  {
    assert w.disk.Current(e.domain) in w.disk.DocumentFile(e.domain).Versions();
  }

  predicate Known(key: Key, ids: set<string>) { key.epoch in ids && key.recordId in ids }

  lemma FollowsKeepsDrawn(d: Disk, d': Disk, domain: string, alias: string, plan: Plan, ids: set<string>, v: Document)
    requires Follows(d, d', domain, alias, plan) && v in d'.DocumentFile(domain).Versions() && alias in v.keys
    requires forall u :: u in d.DocumentFile(domain).Versions() && alias in u.keys ==> Known(u.keys[alias], ids)
    requires plan.Change? ==> Known(plan.key, ids)
    ensures Known(v.keys[alias], ids)
  {
    if u :| u in d.DocumentFile(domain).Versions() && KeyIn(u, alias) == KeyIn(v, alias) {
      assert u.keys[alias] == v.keys[alias];
    }
  }

  lemma StepKeepsInv(k: Keyring, w: World, e: Event)
    requires Inv(w)
    ensures Inv(Apply(k, w, e).world)
  {
    var w' := Apply(k, w, e).world;
    StepFollows(k, w, e, "", "");
    forall p, v, a | v in w'.disk.DocumentFile(p).Versions() && a in v.keys ensures Known(v.keys[a], w'.ids) {
      var plan := if On(e, p, a) then PlanOf(w, e) else Refuse(KeyExists);
      StepFollows(k, w, e, p, a);
      if plan.Change? {
        PlanIdentifiers(w, e);
      }
      FollowsKeepsDrawn(w.disk, w'.disk, p, a, plan, w'.ids, v);
    }
  }

  lemma {:induction false} RunKeepsInv(k: Keyring, w: World, events: seq<Event>)
    requires Inv(w)
    ensures Inv(Run(k, w, events))
  {
    if events != [] {
      RunKeepsInv(k, w, events[..|events| - 1]);
      StepKeepsInv(k, Run(k, w, events[..|events| - 1]), events[|events| - 1]);
    }
  }

  lemma StartOk(k: Keyring)
    ensures Inv(Start)
  {
    StoreRuns.RunIsSound(k.codec, []);
  }

  // ---- Pinned bindings ----

  /** No version that may survive holds the key of this epoch. */
  ghost predicate Missing(d: Disk, domain: string, alias: string, key: Key) {
    forall v :: v in d.DocumentFile(domain).Versions() ==>
      KeyIn(v, alias).None? || KeyIn(v, alias).value.epoch != key.epoch
  }

  /** The pinned key can never be read as settled again. */
  ghost predicate Gone(d: Disk, domain: string, alias: string, key: Key) {
    d.Armed(SlotOf(domain, alias))
    || Missing(d, domain, alias, key)
  }

  lemma GoneCannotBeBorrowed(k: Keyring, d: Disk, b: Binding, key: Key)
    requires Gone(d, b.domain, b.alias, key) && key.epoch == b.epoch
    ensures Borrow(k, d, b).None?
  {
    var slot := SlotOf(b.domain, b.alias);
    assert d.MarkerFile(slot).visible in d.MarkerFile(slot).Versions();
    assert d.Current(b.domain) in d.DocumentFile(b.domain).Versions();
  }

  /** In a sound disk a key that is not the visible one is armed or in no version. */
  lemma OtherThanVisibleIsGone(d: Disk, domain: string, alias: string, key: Key)
    requires d.Sound()
    requires KeyAt(d, domain, alias).None? || KeyAt(d, domain, alias).value.epoch != key.epoch
    ensures Gone(d, domain, alias, key)
  {
    var slot := SlotOf(domain, alias);
    assert d.SoundSlot(slot);
    if d.Agreed(slot) {
      forall v | v in d.DocumentFile(domain).Versions()
        ensures KeyIn(v, alias).None? || KeyIn(v, alias).value.epoch != key.epoch
      {
        assert v.Get(ApiKey, alias) == d.Visible(slot);
      }
    }
  }

  lemma PowerLossChangesArmed(d: Disk, pick: Pick, domain: string, alias: string)
    requires d.Sound() && KeyAt(d.PowerLoss(pick), domain, alias) != KeyAt(d, domain, alias)
    ensures d.PowerLoss(pick).Armed(SlotOf(domain, alias))
  {
    var d' := d.PowerLoss(pick);
    assert d.SoundSlot(SlotOf(domain, alias));
    assert d'.Current(domain) in d.DocumentFile(domain).Versions();
    assert forall v: Document ::
      v.Get(ApiKey, alias) == if KeyIn(v, alias).Some? then Some(KeyRecord(KeyIn(v, alias).value)) else None;
    assert d'.MarkerFile(SlotOf(domain, alias)).visible in d.MarkerFile(SlotOf(domain, alias)).Versions();
  }

  /** A step by which a key stops being the visible one makes it unreadable for good. */
  lemma ChangedIsGone(k: Keyring, w: World, e: Event, domain: string, alias: string, key: Key)
    requires Inv(w) && KeyAt(w.disk, domain, alias) == Some(key) && key.epoch in w.ids
    requires KeyAt(Apply(k, w, e).world.disk, domain, alias) != Some(key)
    ensures Gone(Apply(k, w, e).world.disk, domain, alias, key)
  {
    if e.Elsewhere? {
      ElsewhereFollows(k, w, e, domain, alias);
      if e.action.PowerLoss? {
        PowerLossChangesArmed(w.disk, e.action.pick, domain, alias);
      }
    } else if PlanOf(w, e).Change? {
      ChangeIsPublish(k, w, e);
      PlanIdentifiers(w, e);
      if On(e, domain, alias) {
        PublishChangesKey(k, w.disk, domain, alias, PlanOf(w, e).key, e.io);
        OtherThanVisibleIsGone(Apply(k, w, e).world.disk, domain, alias, key);
      } else {
        PublishSparesOthers(k, w.disk, e.domain, e.alias, PlanOf(w, e).key, e.io, domain, alias);
      }
    } else {
      ClearFollows(k, w, e, domain, alias);
    }
  }

  lemma FollowsStaysMissing(d: Disk, d': Disk, domain: string, alias: string, plan: Plan, key: Key)
    requires Missing(d, domain, alias, key) && Follows(d, d', domain, alias, plan)
    requires plan.Change? ==> plan.key.epoch != key.epoch
    ensures Missing(d', domain, alias, key)
  {
  }

  lemma ArmedStaysGone(k: Keyring, w: World, e: Event, domain: string, alias: string, key: Key)
    requires Inv(w) && key.epoch in w.ids && w.disk.Armed(SlotOf(domain, alias))
    ensures Gone(Apply(k, w, e).world.disk, domain, alias, key)
  {
    if e.Elsewhere? {
      ElsewhereFollows(k, w, e, domain, alias);
      if e.action.PowerLoss? {
        var slot := SlotOf(domain, alias);
        assert w.disk.PowerLoss(e.action.pick).MarkerFile(slot).visible in w.disk.MarkerFile(slot).Versions();
      }
    } else if PlanOf(w, e).Change? {
      ChangeIsPublish(k, w, e);
      PlanIdentifiers(w, e);
      if On(e, domain, alias) {
        PublishChangesKey(k, w.disk, domain, alias, PlanOf(w, e).key, e.io);
      } else {
        PublishSparesOthers(k, w.disk, e.domain, e.alias, PlanOf(w, e).key, e.io, domain, alias);
      }
    } else {
      ClearFollows(k, w, e, domain, alias);
    }
  }

  lemma GoneStaysGone(k: Keyring, w: World, e: Event, domain: string, alias: string, key: Key)
    requires Inv(w) && key.epoch in w.ids && Gone(w.disk, domain, alias, key)
    ensures Gone(Apply(k, w, e).world.disk, domain, alias, key)
  {
    if w.disk.Armed(SlotOf(domain, alias)) {
      ArmedStaysGone(k, w, e, domain, alias, key);
    } else {
      StepFollows(k, w, e, domain, alias);
      var plan := if On(e, domain, alias) then PlanOf(w, e) else Refuse(KeyExists);
      if plan.Change? {
        PlanIdentifiers(w, e);
      }
      FollowsStaysMissing(w.disk, Apply(k, w, e).world.disk, domain, alias, plan, key);
    }
  }

  lemma {:induction false} GoneKeepsOn(
      k: Keyring, w: World, events: seq<Event>, domain: string, alias: string, key: Key)
    requires Inv(w) && key.epoch in w.ids && Gone(w.disk, domain, alias, key)
    ensures Gone(Run(k, w, events).disk, domain, alias, key)
  {
    if events != [] {
      var before := events[..|events| - 1];
      GoneKeepsOn(k, w, before, domain, alias, key);
      RunKeepsInv(k, w, before);
      RunKeepsIds(k, w, before);
      GoneStaysGone(k, Run(k, w, before), events[|events| - 1], domain, alias, key);
    }
  }

  /** A key that is no longer the visible one is gone. */
  lemma {:induction false} ReplacedIsGone(
      k: Keyring, w: World, events: seq<Event>, domain: string, alias: string, key: Key)
    requires Inv(w) && KeyAt(w.disk, domain, alias) == Some(key) && key.epoch in w.ids
    requires KeyAt(Run(k, w, events).disk, domain, alias) != Some(key)
    ensures Gone(Run(k, w, events).disk, domain, alias, key)
  {
    var before, last := events[..|events| - 1], events[|events| - 1];
    var middle := Run(k, w, before);
    RunKeepsInv(k, w, before);
    RunKeepsIds(k, w, before);
    if KeyAt(middle.disk, domain, alias) == Some(key) {
      ChangedIsGone(k, middle, last, domain, alias, key);
    } else {
      ReplacedIsGone(k, w, before, domain, alias, key);
      GoneStaysGone(k, middle, last, domain, alias, key);
    }
  }

  lemma {:induction false} RunKeepsIds(k: Keyring, w: World, events: seq<Event>)
    ensures w.ids <= Run(k, w, events).ids
  {
    if events != [] {
      RunKeepsIds(k, w, events[..|events| - 1]);
    }
  }

  /** Some sequence of mutations, other writers, faults and power losses leads from one world to the other. */
  ghost predicate Leads(k: Keyring, w: World, w': World) { exists events :: w' == Run(k, w, events) }

  ghost predicate Reachable(k: Keyring, w: World) { Leads(k, Start, w) }

  lemma ReachableIsInOrder(k: Keyring, w: World)
    requires Reachable(k, w)
    ensures Inv(w)
  {
    var events :| w == Run(k, Start, events);
    StartOk(k);
    RunKeepsInv(k, Start, events);
  }

  lemma LeadsKeepsOrder(k: Keyring, w: World, w': World)
    requires Inv(w) && Leads(k, w, w')
    ensures Inv(w') && w.ids <= w'.ids
  {
    var events :| w' == Run(k, w, events);
    RunKeepsInv(k, w, events);
    RunKeepsIds(k, w, events);
  }

  /** A binding that can still be borrowed shows that its key never stopped being the visible one. */
  lemma BorrowedIsVisible(k: Keyring, w: World, w': World, b: Binding, key: Key)
    requires Inv(w) && Leads(k, w, w') && KeyAt(w.disk, b.domain, b.alias) == Some(key) && key.epoch == b.epoch
    requires Borrow(k, w'.disk, b).Some?
    ensures KeyAt(w'.disk, b.domain, b.alias) == Some(key)
  {
    assert w.disk.Current(b.domain) in w.disk.DocumentFile(b.domain).Versions();
    if KeyAt(w'.disk, b.domain, b.alias) != Some(key) {
      var events :| w' == Run(k, w, events);
      ReplacedIsGone(k, w, events, b.domain, b.alias, key);
      GoneCannotBeBorrowed(k, w'.disk, b, key);
    }
  }

  /** And not on the way there either. */
  lemma BorrowedStayedVisible(k: Keyring, w: World, w1: World, w2: World, b: Binding, key: Key)
    requires Inv(w) && Leads(k, w, w1) && Leads(k, w1, w2)
    requires KeyAt(w.disk, b.domain, b.alias) == Some(key) && key.epoch == b.epoch && Borrow(k, w2.disk, b).Some?
    ensures KeyAt(w1.disk, b.domain, b.alias) == Some(key)
  {
    assert w.disk.Current(b.domain) in w.disk.DocumentFile(b.domain).Versions();
    LeadsKeepsOrder(k, w, w1);
    if KeyAt(w1.disk, b.domain, b.alias) != Some(key) {
      var first :| w1 == Run(k, w, first);
      ReplacedIsGone(k, w, first, b.domain, b.alias, key);
      var second :| w2 == Run(k, w1, second);
      GoneKeepsOn(k, w1, second, b.domain, b.alias, key);
      GoneCannotBeBorrowed(k, w2.disk, b, key);
    }
  }

  /**
   A binding lends nothing but the material it was made for, and lends it only
   while no mutation has taken effect since: in every state `w1` between the
   bind and the borrow the visible key is that very record. Disabling and
   re-enabling a key, or replacing it by the same material, ends the binding
   for good.
   */
  lemma PinnedKey(k: Keyring, w: World, w1: World, w2: World, domain: string, alias: string, requireEnabled: bool)
    requires Reachable(k, w) && Leads(k, w, w1) && Leads(k, w1, w2)
    requires Bind(k, w.disk, domain, alias, requireEnabled).Some?
    requires Borrow(k, w2.disk, Bind(k, w.disk, domain, alias, requireEnabled).value).Some?
    ensures var key := KeyAt(w.disk, domain, alias).value;
            && Borrow(k, w2.disk, Bind(k, w.disk, domain, alias, requireEnabled).value) == key.secret
            && KeyAt(w1.disk, domain, alias) == Some(key) && KeyAt(w2.disk, domain, alias) == Some(key)
  {
    var key, b := KeyAt(w.disk, domain, alias).value, Bind(k, w.disk, domain, alias, requireEnabled).value;
    ReachableIsInOrder(k, w);
    BorrowedStayedVisible(k, w, w1, w2, b, key);
    LeadsKeepsOrder(k, w, w1);
    BorrowedIsVisible(k, w1, w2, b, key);
  }

  // ---- Revisions ----

  /** Every version that may survive is past this revision. */
  ghost predicate Past(d: Disk, domain: string, alias: string, revision: nat) {
    forall v :: v in d.DocumentFile(domain).Versions() ==>
      KeyIn(v, alias).Some? && KeyIn(v, alias).value.revision > revision
  }

  predicate Mutates(e: Event) { e.Replace? || e.SetEnabled? || e.Remove? }

  /** A mutation of a stored key takes the revision it presents to the next one. */
  lemma PlanRevision(w: World, e: Event)
    requires PlanOf(w, e).Change? && KeyAt(w.disk, e.domain, e.alias).Some?
    ensures Mutates(e) && e.revision == KeyAt(w.disk, e.domain, e.alias).value.revision
    ensures PlanOf(w, e).key.revision == e.revision + 1
  {
  }

  lemma FollowsStaysPast(d: Disk, d': Disk, domain: string, alias: string, plan: Plan, revision: nat)
    requires Past(d, domain, alias, revision) && Follows(d, d', domain, alias, plan)
    requires plan.Change? ==> plan.key.revision > revision
    ensures Past(d', domain, alias, revision)
  {
  }

  lemma StepKeepsPast(k: Keyring, w: World, e: Event, domain: string, alias: string, revision: nat)
    requires Inv(w) && Past(w.disk, domain, alias, revision)
    ensures Past(Apply(k, w, e).world.disk, domain, alias, revision)
  {
    StepFollows(k, w, e, domain, alias);
    assert w.disk.Current(domain) in w.disk.DocumentFile(domain).Versions();
    var plan := if On(e, domain, alias) then PlanOf(w, e) else Refuse(KeyExists);
    if plan.Change? {
      PlanRevision(w, e);
    }
    FollowsStaysPast(w.disk, Apply(k, w, e).world.disk, domain, alias, plan, revision);
  }

  lemma {:induction false} RunKeepsPast(
      k: Keyring, w: World, events: seq<Event>, domain: string, alias: string, revision: nat)
    requires Inv(w) && Past(w.disk, domain, alias, revision)
    ensures Past(Run(k, w, events).disk, domain, alias, revision)
  {
    if events != [] {
      var before := events[..|events| - 1];
      RunKeepsPast(k, w, before, domain, alias, revision);
      RunKeepsInv(k, w, before);
      StepKeepsPast(k, Run(k, w, before), events[|events| - 1], domain, alias, revision);
    }
  }

  /** A key that reads without the recovery flag is in every version that may survive. */
  lemma SettledKeyIsOnly(d: Disk, domain: string, alias: string, key: Key)
    requires d.Sound() && !d.Recovery(SlotOf(domain, alias)) && KeyAt(d, domain, alias) == Some(key)
    ensures OnlyKey(d, domain, alias, key)
  {
    var slot := SlotOf(domain, alias);
    assert d.SoundSlot(slot) && d.MarkerFile(slot).visible in d.MarkerFile(slot).Versions();
    forall v | v in d.DocumentFile(domain).Versions() ensures KeyIn(v, alias) == Some(key) {
      assert v.Get(ApiKey, alias) == d.Visible(slot);
    }
  }

  /** The mutation has taken effect: its key is the visible one, without the recovery flag. */
  predicate TookEffect(k: Keyring, w: World, e: Event) {
    && Mutates(e) && PlanOf(w, e).Change?
    && var d := Apply(k, w, e).world.disk;
       !d.Recovery(SlotOf(e.domain, e.alias)) && KeyAt(d, e.domain, e.alias) == Some(PlanOf(w, e).key)
  }

  /** Whatever is reported done has taken effect. */
  lemma DoneTookEffect(k: Keyring, w: World, e: Event)
    requires Inv(w) && Mutates(e) && PlanOf(w, e).Change? && Apply(k, w, e).outcome == Done
    ensures TookEffect(k, w, e)
  {
    hide Disk.Publish;
    var key := PlanOf(w, e).key;
    ChangeIsPublish(k, w, e);
    PublishHonest(w.disk, k.codec, e.domain, e.alias, KeyRecord(key), e.io);
    PublishChangesKey(k, w.disk, e.domain, e.alias, key, e.io);
    assert Apply(k, w, e).world.disk.Current(e.domain) in Apply(k, w, e).world.disk.DocumentFile(e.domain).Versions();
  }

  /**
   A revision is good for one mutation: once one that presented it has taken
   effect, whatever it reported, no later mutation that presents it changes
   anything, in any run and after any loss of power.
   */
  lemma RevisionIsSpent(k: Keyring, w: World, e: Event, w': World, again: Event)
    requires Reachable(k, w) && TookEffect(k, w, e) && Leads(k, Apply(k, w, e).world, w')
    requires Mutates(again) && again.domain == e.domain && again.alias == e.alias && again.revision == e.revision
    ensures Apply(k, w', again).world == w' && Apply(k, w', again).outcome.Failed?
  {
    hide Apply, PlanOf;
    var w1 := Apply(k, w, e).world;
    ReachableIsInOrder(k, w);
    StepKeepsInv(k, w, e);
    MutationRevision(w, e);
    SettledKeyIsOnly(w1.disk, e.domain, e.alias, PlanOf(w, e).key);
    var events :| w' == Run(k, w1, events);
    RunKeepsPast(k, w1, events, e.domain, e.alias, e.revision);
    SpentRevisionIsRefused(k, w', again);
  }

  lemma MutationRevision(w: World, e: Event)
    requires Mutates(e) && PlanOf(w, e).Change?
    ensures PlanOf(w, e).key.revision > e.revision
  {
  }

  /** Every version that may survive holds this key, or one of a later revision. */
  ghost predicate AtLeast(d: Disk, domain: string, alias: string, key: Key) {
    forall v :: v in d.DocumentFile(domain).Versions() ==>
      KeyIn(v, alias).Some? && (KeyIn(v, alias).value == key || KeyIn(v, alias).value.revision > key.revision)
  }

  lemma FollowsStaysAtLeast(d: Disk, d': Disk, domain: string, alias: string, plan: Plan, key: Key)
    requires AtLeast(d, domain, alias, key) && Follows(d, d', domain, alias, plan)
    requires plan.Change? ==> plan.key.revision > key.revision
    ensures AtLeast(d', domain, alias, key)
  {
  }

  lemma StepKeepsAtLeast(k: Keyring, w: World, e: Event, domain: string, alias: string, key: Key)
    requires Inv(w) && AtLeast(w.disk, domain, alias, key)
    ensures AtLeast(Apply(k, w, e).world.disk, domain, alias, key)
  {
    StepFollows(k, w, e, domain, alias);
    assert w.disk.Current(domain) in w.disk.DocumentFile(domain).Versions();
    var plan := if On(e, domain, alias) then PlanOf(w, e) else Refuse(KeyExists);
    if plan.Change? {
      PlanRevision(w, e);
    }
    FollowsStaysAtLeast(w.disk, Apply(k, w, e).world.disk, domain, alias, plan, key);
  }

  lemma {:induction false} RunKeepsAtLeast(
      k: Keyring, w: World, events: seq<Event>, domain: string, alias: string, key: Key)
    requires Inv(w) && AtLeast(w.disk, domain, alias, key)
    ensures AtLeast(Run(k, w, events).disk, domain, alias, key)
  {
    if events != [] {
      var before := events[..|events| - 1];
      RunKeepsAtLeast(k, w, before, domain, alias, key);
      RunKeepsInv(k, w, before);
      StepKeepsAtLeast(k, Run(k, w, before), events[|events| - 1], domain, alias, key);
    }
  }

  /**
   A revision names one key: whatever two keys of an alias read at one revision
   without the recovery flag, anywhere along a run, they are the same.
   */
  lemma RevisionNamesKey(k: Keyring, w: World, w': World, domain: string, alias: string)
    requires Reachable(k, w) && Leads(k, w, w')
    requires !w.disk.Recovery(SlotOf(domain, alias)) && KeyAt(w.disk, domain, alias).Some?
    requires !w'.disk.Recovery(SlotOf(domain, alias)) && KeyAt(w'.disk, domain, alias).Some?
    requires KeyAt(w'.disk, domain, alias).value.revision == KeyAt(w.disk, domain, alias).value.revision
    ensures KeyAt(w'.disk, domain, alias) == KeyAt(w.disk, domain, alias)
  {
    var key := KeyAt(w.disk, domain, alias).value;
    ReachableIsInOrder(k, w);
    SettledKeyIsOnly(w.disk, domain, alias, key);
    var events :| w' == Run(k, w, events);
    RunKeepsAtLeast(k, w, events, domain, alias, key);
    assert w'.disk.Current(domain) in w'.disk.DocumentFile(domain).Versions();
  }

  lemma StaleRevisionIsRefused(w: World, e: Event)
    requires Mutates(e) && KeyAt(w.disk, e.domain, e.alias).Some?
      && KeyAt(w.disk, e.domain, e.alias).value.revision > e.revision
    ensures PlanOf(w, e).Refuse?
  {
  }

  lemma SpentRevisionIsRefused(k: Keyring, w: World, e: Event)
    requires Mutates(e) && Past(w.disk, e.domain, e.alias, e.revision)
    ensures Apply(k, w, e).world == w && Apply(k, w, e).outcome.Failed?
  {
    assert w.disk.Current(e.domain) in w.disk.DocumentFile(e.domain).Versions();
    StaleRevisionIsRefused(w, e);
  }

  /**
   Every key in every version that may survive is valid; in particular 1 <=
   generation <= revision, and a removed key keeps no secret.
   */
  lemma StoredKeysAreValid(k: Keyring, w: World, domain: string, alias: string)
    requires Reachable(k, w)
    ensures forall v :: v in w.disk.DocumentFile(domain).Versions() && alias in v.keys ==>
      v.keys[alias].Valid(domain, alias)
  {
    ReachableIsInOrder(k, w);
    assert w.disk.SoundFile(domain);
  }

  lemma StoredKeyIsValid(w: World, domain: string, alias: string)
    requires Inv(w) && KeyAt(w.disk, domain, alias).Some?
    ensures KeyAt(w.disk, domain, alias).value.Valid(domain, alias)
  {
    assert w.disk.SoundFile(domain);
    assert w.disk.Current(domain) in w.disk.DocumentFile(domain).Versions();
  }

  /** No mutation of a stored key, and no addition under a legal name, builds a key that the store would refuse. */
  lemma PlansAreValid(w: World, e: Event)
    requires Inv(w) && PlanOf(w, e).Change?
    requires KeyId(e.epoch) && (e.Add? ==> KeyId(e.recordId) && ValidProfile(e.domain) && ValidAlias(e.alias))
    ensures PlanOf(w, e).key.Valid(e.domain, e.alias)
  {
    if !e.Add? {
      StoredKeyIsValid(w, e.domain, e.alias);
    }
  }
}
