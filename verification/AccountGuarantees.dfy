/** What the authorization lifecycle promises its callers, over every run. */
module AccountGuarantees {
  import opened Prelude
  import opened Records
  import opened Store
  import opened Publication
  import StoreRuns
  import opened Accounts
  import opened AccountSafety

  // ---- What is lent ----

  /** What an inference borrows was confirmed for the principal the binding pins, and was never spent on a renewal. */
  lemma BorrowedMaterialIsConfirmed(m: Manager, w: World, binding: Binding, now: nat)
    requires Reachable(m, w) && Borrow(m, w.disk, binding, now).Some?
    ensures var c := Borrow(m, w.disk, binding, now).value;
            && c.serial < |w.issued| && c.serial !in w.renewed
            && w.issued[c.serial].alias == binding.alias && w.issued[c.serial].verified == Some(binding.identity)
            && w.issued[c.serial].refresh == c.refresh
  {
    ReachableIsInOrder(m, w);
    VisibleOk(m, w);
    assert AccountOk(m, w, binding.alias, w.disk.Current(m.profile).oauth[binding.alias]);
  }

  // ---- Logins are superseded for good ----

  /** A login with this ticket could still publish. */
  ghost predicate Honoured(m: Manager, d: Disk, alias: string, attempt: string) {
    && !d.Recovery(m.SlotOf(alias))
    && alias in d.Current(m.profile).oauth
    && d.Current(m.profile).oauth[alias].attempt == Some(attempt)
  }

  ghost predicate Outstanding(w: World, attempt: string) {
    exists id :: id in w.ops && !w.ops[id].Holds() && w.ops[id].attempt == attempt
  }

  /** A drawn ticket that nobody holds any more, or that its account no longer names. */
  ghost predicate Dead(m: Manager, w: World, alias: string, attempt: string) {
    attempt in w.attempts && (!Outstanding(w, attempt) || !Honoured(m, w.disk, alias, attempt))
  }

  /** No step gives a ticket that was drawn before to an operation that does not hold it. */
  lemma TicketsAreNotReissued(m: Manager, w: World, e: Event, attempt: string)
    requires Inv(m, w) && attempt in w.attempts && !Outstanding(w, attempt)
    ensures !Outstanding(Apply(m, w, e), attempt) && attempt in Apply(m, w, e).attempts
  {
    hide DraftBegin, DraftRetain, DraftFinish, DraftDrop, DraftRefresh, DraftRenewed, DraftVerified, DraftLogout,
         Disk.Publish, Disk.Sound, SpentOk, VersionsOk;
    if Draft(m, w, e).Some? {
      var draft := Draft(m, w, e).value;
      var next := NextOps(w, e, draft, Published(m, w, draft, EnvOf(e).io).outcome == Done, Taken(m, w, e, draft));
      DraftEntitled(m, w, e);
      forall id | id in next && !next[id].Holds() ensures next[id].attempt != attempt {
        NextOp(w, e, draft, Published(m, w, draft, EnvOf(e).io).outcome == Done, Taken(m, w, e, draft), id);
      }
    }
  }

  /** The ticket in a published account is the visible one, or one that is drawn in this very step. */
  lemma DraftTicket(m: Manager, w: World, e: Event, attempt: string)
    requires Inv(m, w) && Draft(m, w, e).Some? && attempt in w.attempts
    requires Draft(m, w, e).value.attempt == Some(attempt)
    ensures Honoured(m, w.disk, Draft(m, w, e).value.alias, attempt)
  {
    hide SpentOk, OpsOk, Disk.Sound;
    if e.RenewPending? || e.RenewVerified? || e.Verified? {
      HeldHasNoTicket(m, w, e.id);
    } else {
      DraftEvolves(m, w, e);
    }
  }

  /** An account under renewal names no login ticket. */
  lemma HeldHasNoTicket(m: Manager, w: World, id: nat)
    requires Inv(m, w) && id in w.ops && w.ops[id].Holds()
    ensures w.ops[id].account.attempt.None?
  {
    VisibleOk(m, w);
    assert OpOk(m, w, w.ops[id]);
    assert AccountOk(m, w, w.ops[id].account.alias, w.ops[id].account);
  }

  lemma ForeignKeepsDead(m: Manager, d: Disk, action: StoreRuns.Action, alias: string, attempt: string)
    requires d.Sound() && Outside(m, action) && !Honoured(m, d, alias, attempt)
    ensures !Honoured(m, StoreRuns.Act(d, m.codec, action), alias, attempt)
  {
    hide StoreRuns.Act, Disk.Sound;
    OutsideKeeps(m, d, action);
  }

  lemma ClearingKeepsDead(m: Manager, d: Disk, a: string, io: Io, alias: string, attempt: string)
    requires d.Sound() && !Honoured(m, d, alias, attempt)
    ensures !Honoured(m, d.ClearUnpublished(m.SlotOf(a), io).disk, alias, attempt)
  {
    ClearKeepsSound(d, m.SlotOf(a), io);
  }

  lemma IdleKeepsDead(m: Manager, w: World, e: Event, alias: string, attempt: string)
    requires Inv(m, w) && Draft(m, w, e).None? && !e.PowerLoss? && !Honoured(m, w.disk, alias, attempt)
    ensures !Honoured(m, Idle(m, w, e).disk, alias, attempt)
  {
    hide Draft, Honoured, Load, Disk.ClearUnpublished, StoreRuns.Act;
    if e.Logout? {
      ClearingKeepsDead(m, w.disk, e.alias, e.env.io, alias, attempt);
    } else if e.Foreign? && Outside(m, e.action) {
      ForeignKeepsDead(m, w.disk, e.action, alias, attempt);
    } else {
      assert Idle(m, w, e).disk == w.disk;
    }
  }

  /** Publishing an account without this ticket does not bring the ticket back. */
  lemma PublishedStaysDead(m: Manager, w: World, draft: Account, io: Io, alias: string, attempt: string)
    requires w.disk.Sound() && !Honoured(m, w.disk, alias, attempt)
    requires draft.alias == alias ==> draft.attempt != Some(attempt)
    ensures !Honoured(m, Published(m, w, draft, io).disk, alias, attempt)
  {
    PublishedAccounts(m, w, draft, io);
  }

  lemma DraftKeepsDead(m: Manager, w: World, e: Event, alias: string, attempt: string)
    requires Inv(m, w) && attempt in w.attempts && !Honoured(m, w.disk, alias, attempt) && Draft(m, w, e).Some?
    ensures !Honoured(m, Apply(m, w, e).disk, alias, attempt)
  {
    var draft := Draft(m, w, e).value;
    if draft.alias == alias && draft.attempt == Some(attempt) {
      DraftTicket(m, w, e, attempt);
    }
    PublishedStaysDead(m, w, draft, EnvOf(e).io, alias, attempt);
  }

  lemma LossKeepsDead(m: Manager, w: World, e: Event, attempt: string)
    requires e.PowerLoss? && attempt in w.attempts
    ensures attempt in Apply(m, w, e).attempts && !Outstanding(Apply(m, w, e), attempt)
  {
  }

  lemma AttemptsGrow(m: Manager, w: World, e: Event)
    ensures w.attempts <= Apply(m, w, e).attempts
  {
  }

  lemma StepKeepsDead(m: Manager, w: World, e: Event, alias: string, attempt: string)
    requires Inv(m, w) && Dead(m, w, alias, attempt)
    ensures Dead(m, Apply(m, w, e), alias, attempt)
  {
    AttemptsGrow(m, w, e);
    if !Outstanding(w, attempt) {
      TicketsAreNotReissued(m, w, e, attempt);
    } else if e.PowerLoss? {
      LossKeepsDead(m, w, e, attempt);
    } else if Draft(m, w, e).Some? {
      DraftKeepsDead(m, w, e, alias, attempt);
    } else {
      IdleKeepsDead(m, w, e, alias, attempt);
    }
  }

  lemma {:induction false} RunKeepsDead(m: Manager, w: World, events: seq<Event>, alias: string, attempt: string)
    requires Inv(m, w) && Dead(m, w, alias, attempt)
    ensures Dead(m, Run(m, w, events), alias, attempt)
  {
    if events != [] {
      var before := events[..|events| - 1];
      RunKeepsDead(m, w, before, alias, attempt);
      RunsKeepInv(m, w, before);
      StepKeepsDead(m, Run(m, w, before), events[|events| - 1], alias, attempt);
    }
  }

  /** A dead ticket stays dead, whatever happens. */
  lemma DeadTicketsStayDead(m: Manager, w: World, w': World, alias: string, attempt: string)
    requires Reachable(m, w) && Dead(m, w, alias, attempt) && Leads(m, w, w')
    ensures Dead(m, w', alias, attempt)
  {
    ReachableIsInOrder(m, w);
    var events :| w' == Run(m, w, events);
    RunKeepsDead(m, w, events, alias, attempt);
  }

  /**
   Once its ticket is dead, a login publishes nothing more, whatever happens in
   between and whatever the authority answers.
   */
  lemma SupersededLoginPublishesNothing(
      m: Manager, w: World, w': World, alias: string, attempt: string, id: nat,
      identity: Identity, answer: Answer, client: string, env: Env)
    requires Reachable(m, w) && Dead(m, w, alias, attempt) && Leads(m, w, w')
    requires id in w'.ops && w'.ops[id].Login? && w'.ops[id].alias == alias && w'.ops[id].attempt == attempt
    ensures Draft(m, w', FinishLogin(id, identity, answer, env)).None?
    ensures Draft(m, w', RetainClient(id, client, env)).None?
  {
    DeadTicketsStayDead(m, w, w', alias, attempt);
    assert Outstanding(w', attempt);
  }

  /**
   A logout, the start of a refresh or a newer login that is published, or any
   doubt about the record, kills every older ticket.
   */
  lemma WhatSupersedes(m: Manager, w: World, e: Event, alias: string, attempt: string)
    requires Inv(m, w) && attempt in w.attempts
    requires (e.Logout? && e.alias == alias) || (e.StartRefresh? && e.alias == alias)
      || (e.BeginLogin? && e.alias == alias)
    requires Draft(m, w, e).Some?
    requires w.disk.Publish(m.codec, m.profile, alias, AccountRecord(Draft(m, w, e).value), EnvOf(e).io).outcome == Done
             || Apply(m, w, e).disk.Recovery(m.SlotOf(alias))
    ensures Dead(m, Apply(m, w, e), alias, attempt)
  {
    hide Draft, Disk.Publish, Idle, NextOps;
    AttemptsGrow(m, w, e);
    SupersedingDraft(m, w, e, attempt);
    PublishedKills(m, w, Draft(m, w, e).value, EnvOf(e).io, attempt);
  }

  lemma SupersedingDraft(m: Manager, w: World, e: Event, attempt: string)
    requires Inv(m, w) && attempt in w.attempts && (e.Logout? || e.StartRefresh? || e.BeginLogin?)
      && Draft(m, w, e).Some?
    ensures Draft(m, w, e).value.alias == e.alias && Draft(m, w, e).value.attempt != Some(attempt)
  {
    DraftEvolves(m, w, e);
  }

  /** An account without the ticket, once it is published for good or in doubt, kills the ticket. */
  lemma PublishedKills(m: Manager, w: World, draft: Account, io: Io, attempt: string)
    requires w.disk.Sound() && draft.attempt != Some(attempt)
    requires Published(m, w, draft, io).outcome == Done
      || Published(m, w, draft, io).disk.Recovery(m.SlotOf(draft.alias))
    ensures !Honoured(m, Published(m, w, draft, io).disk, draft.alias, attempt)
  {
    PublishedAccounts(m, w, draft, io);
  }

  /** Dropping a ticket changes nothing of the account but that ticket. */
  lemma DropTouchesOnlyItsTicket(m: Manager, w: World, id: nat, env: Env)
    requires Inv(m, w) && Draft(m, w, DropLogin(id, env)).Some?
    ensures var alias := w.ops[id].Alias();
            && alias in w.disk.Current(m.profile).oauth
            && var was := w.disk.Current(m.profile).oauth[alias];
               && was.attempt == Some(w.ops[id].attempt)
               && Draft(m, w, DropLogin(id, env)).value == was.(attempt := None, revision := was.revision + 1)
  {
    VisibleOk(m, w);
    assert AccountOk(m, w, w.ops[id].Alias(), w.disk.Current(m.profile).oauth[w.ops[id].Alias()]);
  }

  // ---- Stored accounts ----

  /**
   Every account in every version that may survive is valid, and no two aliases
   of the profile are bound to one client and principal.
   */
  lemma StoredAccountsAreValid(m: Manager, w: World)
    requires Reachable(m, w)
    ensures forall v :: v in w.disk.DocumentFile(m.profile).Versions() ==>
              (forall a :: a in v.oauth ==> v.oauth[a].Valid(m.profile, a)) && Distinct(v.oauth)
  {
    ReachableIsInOrder(m, w);
    forall v | v in w.disk.DocumentFile(m.profile).Versions()
      ensures (forall a :: a in v.oauth ==> v.oauth[a].Valid(m.profile, a)) && Distinct(v.oauth)
    {
      assert AccountsOk(m, w, v.oauth);
      assert forall a :: a in v.oauth ==> AccountOk(m, w, a, v.oauth[a]);
    }
  }

  /** The names and answers that a caller or the authority supplies are well-formed. */
  ghost predicate WellFormed(e: Event) {
    match e
    case BeginLogin(_, alias, client, attempt, _) => ValidAlias(alias) && ValidClient(client) && TicketId(attempt)
    case RetainClient(_, client, _) => ValidClient(client)
    case RenewPending(_, answer, _) => answer.expiresAt != Some(0)
    case _ => true
  }

  lemma LoginDraftsAreValid(m: Manager, w: World, e: Event)
    requires Inv(m, w) && ValidProfile(m.profile) && WellFormed(e) && OfLogin(e) && Draft(m, w, e).Some?
    ensures Draft(m, w, e).value.Valid(m.profile, Draft(m, w, e).value.alias)
  {
    VisibleOk(m, w);
    var accounts := w.disk.Current(m.profile).oauth;
    if !e.BeginLogin? {
      assert AccountOk(m, w, w.ops[e.id].Alias(), accounts[w.ops[e.id].Alias()]);
    } else if e.alias in accounts {
      assert AccountOk(m, w, e.alias, accounts[e.alias]);
    }
  }

  /** On well-formed input no transaction builds an account that the store would refuse. */
  lemma DraftsAreValid(m: Manager, w: World, e: Event)
    requires Inv(m, w) && ValidProfile(m.profile) && WellFormed(e) && Draft(m, w, e).Some?
    ensures Draft(m, w, e).value.Valid(m.profile, Draft(m, w, e).value.alias)
  {
    VisibleOk(m, w);
    if OfLogin(e) {
      LoginDraftsAreValid(m, w, e);
    } else if e.StartRefresh? || e.Logout? {
      assert AccountOk(m, w, e.alias, w.disk.Current(m.profile).oauth[e.alias]);
    } else {
      assert OpOk(m, w, w.ops[e.id]);
      assert AccountOk(m, w, w.ops[e.id].account.alias, w.ops[e.id].account);
    }
  }

  // ---- Principals ----

  /** The accounts of a version were in some version before. */
  ghost predicate HeldBefore(m: Manager, d: Disk, v: Document) {
    exists u :: u in d.DocumentFile(m.profile).Versions() && u.oauth == v.oauth
  }

  lemma ForeignVersions(m: Manager, d: Disk, action: StoreRuns.Action, v: Document)
    requires d.Sound() && Outside(m, action)
    requires v in StoreRuns.Act(d, m.codec, action).DocumentFile(m.profile).Versions()
    ensures HeldBefore(m, d, v)
  {
    OutsideKeeps(m, d, action);
  }

  lemma LossVersions(m: Manager, d: Disk, pick: Pick, v: Document)
    requires v in d.PowerLoss(pick).DocumentFile(m.profile).Versions()
    ensures HeldBefore(m, d, v)
  {
    LossKeepsAVersion(d, pick, m.profile);
  }

  lemma IdleElsewhere(m: Manager, w: World, e: Event)
    requires Inv(m, w) && !(e.Foreign? && Outside(m, e.action)) && !e.PowerLoss?
    ensures Idle(m, w, e).disk.DocumentFile(m.profile) == w.disk.DocumentFile(m.profile)
  {
    if e.Logout? {
      ClearKeepsSound(w.disk, m.SlotOf(e.alias), e.env.io);
    }
  }

  /** A step that publishes nothing stores no new accounts. */
  lemma IdleVersions(m: Manager, w: World, e: Event, v: Document)
    requires Inv(m, w) && v in Idle(m, w, e).disk.DocumentFile(m.profile).Versions()
    ensures HeldBefore(m, w.disk, v)
  {
    hide StoreRuns.Act, Disk.PowerLoss, Disk.ClearUnpublished, Disk.Sound, VersionsOk, OpsOk, SpentOk, Outside;
    if e.Foreign? && Outside(m, e.action) {
      ForeignVersions(m, w.disk, e.action, v);
    } else if e.PowerLoss? {
      LossVersions(m, w.disk, e.pick, v);
    } else {
      IdleElsewhere(m, w, e);
    }
  }

  /** A step stores the accounts of its draft, or accounts that some version already held. */
  lemma StepVersions(m: Manager, w: World, e: Event, v: Document)
    requires Inv(m, w) && v in Apply(m, w, e).disk.DocumentFile(m.profile).Versions()
    ensures HeldBefore(m, w.disk, v) || (Draft(m, w, e).Some? && v.oauth == NextAccounts(m, w, Draft(m, w, e).value))
  {
    if Draft(m, w, e).Some? {
      PublishedAccounts(m, w, Draft(m, w, e).value, EnvOf(e).io);
    } else {
      IdleVersions(m, w, e, v);
    }
  }

  /** Every version that may survive binds the alias to this client and principal. */
  ghost predicate Bound(m: Manager, d: Disk, alias: string, client: string, identity: Identity) {
    forall v :: v in d.DocumentFile(m.profile).Versions() ==>
      alias in v.oauth && v.oauth[alias].client == client && v.oauth[alias].identity == Some(identity)
  }

  lemma StepKeepsBound(m: Manager, w: World, e: Event, alias: string, client: string, identity: Identity)
    requires Inv(m, w) && Bound(m, w.disk, alias, client, identity)
    ensures Bound(m, Apply(m, w, e).disk, alias, client, identity)
  {
    hide Draft, Idle, NextOps, Inv;
    assert w.disk.Current(m.profile) in w.disk.DocumentFile(m.profile).Versions();
    if Draft(m, w, e).Some? {
      DraftEvolves(m, w, e);
    }
    forall v | v in Apply(m, w, e).disk.DocumentFile(m.profile).Versions()
      ensures alias in v.oauth && v.oauth[alias].client == client && v.oauth[alias].identity == Some(identity)
    {
      StepVersions(m, w, e, v);
    }
  }

  lemma {:induction false} RunKeepsBound(
      m: Manager, w: World, events: seq<Event>, alias: string, client: string, identity: Identity)
    requires Inv(m, w) && Bound(m, w.disk, alias, client, identity)
    ensures Bound(m, Run(m, w, events).disk, alias, client, identity)
  {
    if events != [] {
      var before := events[..|events| - 1];
      RunKeepsBound(m, w, before, alias, client, identity);
      RunsKeepInv(m, w, before);
      StepKeepsBound(m, Run(m, w, before), events[|events| - 1], alias, client, identity);
    }
  }

  /**
   A durable binding of an alias to a client and a principal is never changed
   again, in any run and by any power loss.
   */
  lemma PrincipalsAreWrittenOnce(m: Manager, w: World, w': World, alias: string, client: string, identity: Identity)
    requires Reachable(m, w) && Leads(m, w, w') && Bound(m, w.disk, alias, client, identity)
    ensures Bound(m, w'.disk, alias, client, identity)
  {
    ReachableIsInOrder(m, w);
    var events :| w' == Run(m, w, events);
    RunKeepsBound(m, w, events, alias, client, identity);
  }

  // ---- Generations ----

  lemma LoginAdvancesGeneration(m: Manager, w: World, e: Event)
    requires Inv(m, w) && OfLogin(e) && Draft(m, w, e).Some?
    requires Draft(m, w, e).value.alias in w.disk.Current(m.profile).oauth
    ensures var draft := Draft(m, w, e).value;
            var was := w.disk.Current(m.profile).oauth[draft.alias];
            draft.credential != was.credential ==>
              (draft.generation == was.generation + 1 <==> !(e.BeginLogin? && w.disk.Recovery(m.SlotOf(draft.alias))))
  {
    hide Disk.Sound, SpentOk, Available, Accepted, ValidGrant;
    VisibleOk(m, w);
    var draft := Draft(m, w, e).value;
    LoginEvolves(m, w, e);
    assert AccountOk(m, w, draft.alias, w.disk.Current(m.profile).oauth[draft.alias]);
  }

  lemma StrippingAdvancesGeneration(m: Manager, w: World, e: Event)
    requires Inv(m, w) && (e.StartRefresh? || e.Logout?) && Draft(m, w, e).Some?
    ensures Draft(m, w, e).value.alias in w.disk.Current(m.profile).oauth
    ensures Draft(m, w, e).value.generation
            == w.disk.Current(m.profile).oauth[Draft(m, w, e).value.alias].generation + 1
  {
    hide Accepted, Disk.Sound;
    VisibleOk(m, w);
    assert AccountOk(m, w, e.alias, w.disk.Current(m.profile).oauth[e.alias]);
  }

  lemma RenewalAdvancesGeneration(m: Manager, w: World, e: Event)
    requires Inv(m, w) && (e.RenewVerified? || e.RenewPending? || e.Verified?) && Draft(m, w, e).Some?
    requires Draft(m, w, e).value.alias in w.disk.Current(m.profile).oauth
    ensures var draft := Draft(m, w, e).value;
            var was := w.disk.Current(m.profile).oauth[draft.alias];
            draft.credential != was.credential ==> draft.generation == was.generation + 1
  {
    hide Accepted, ValidGrant, Disk.Sound, SpentOk;
    assert OpOk(m, w, w.ops[e.id]);
  }

  /**
   Replacing the stored credential advances the generation, with one exception:
   a login ticket published over a record in recovery drops the quarantined
   credential under its old generation.
   */
  lemma ReplacementAdvancesGeneration(m: Manager, w: World, e: Event)
    requires Inv(m, w) && Draft(m, w, e).Some?
    requires Draft(m, w, e).value.alias in w.disk.Current(m.profile).oauth
    ensures var draft := Draft(m, w, e).value;
            var was := w.disk.Current(m.profile).oauth[draft.alias];
            draft.credential != was.credential ==>
              (draft.generation == was.generation + 1 <==> !(e.BeginLogin? && w.disk.Recovery(m.SlotOf(draft.alias))))
  {
    if OfLogin(e) {
      LoginAdvancesGeneration(m, w, e);
    } else if e.StartRefresh? || e.Logout? {
      StrippingAdvancesGeneration(m, w, e);
    } else {
      RenewalAdvancesGeneration(m, w, e);
    }
  }

  /** The exception happens to every login over a quarantined credential. */
  lemma QuarantineKeepsGeneration(m: Manager, w: World, id: nat, alias: string, attempt: string, env: Env)
    requires var d := w.disk.Current(m.profile).oauth;
             && alias in d && d[alias].credential.Some? && d[alias].revision < MAX_U64
             && w.disk.Recovery(m.SlotOf(alias)) && Accepted(m, w.disk, alias)
             && env.granted && !Locked(w, alias) && id !in w.ops && attempt !in w.attempts
    ensures var was := w.disk.Current(m.profile).oauth[alias];
            var draft := Draft(m, w, BeginLogin(id, alias, was.client, attempt, env));
            draft.Some? && draft.value.credential.None? && draft.value.generation == was.generation
  {
  }

  /** Within one generation the alias has at most this credential, in every version that may survive. */
  ghost predicate Named(m: Manager, d: Disk, alias: string, generation: nat, credential: Credential) {
    forall v :: v in d.DocumentFile(m.profile).Versions() ==>
      && alias in v.oauth && v.oauth[alias].generation >= generation
      && (v.oauth[alias].generation == generation ==> v.oauth[alias].credential in {None, Some(credential)})
  }

  lemma DraftKeepsNamed(m: Manager, w: World, e: Event, alias: string, generation: nat, credential: Credential)
    requires Inv(m, w) && Named(m, w.disk, alias, generation, credential) && Draft(m, w, e).Some?
    ensures var next := NextAccounts(m, w, Draft(m, w, e).value);
            && alias in next && next[alias].generation >= generation
            && (next[alias].generation == generation ==> next[alias].credential in {None, Some(credential)})
  {
    assert w.disk.Current(m.profile) in w.disk.DocumentFile(m.profile).Versions();
    DraftEvolves(m, w, e);
    if Draft(m, w, e).value.alias == alias {
      ReplacementAdvancesGeneration(m, w, e);
      if e.BeginLogin? && w.disk.Recovery(m.SlotOf(e.alias)) {
        QuarantineDropsCredential(m, w, e);
      }
    }
  }

  lemma StepKeepsNamed(m: Manager, w: World, e: Event, alias: string, generation: nat, credential: Credential)
    requires Inv(m, w) && Named(m, w.disk, alias, generation, credential)
    ensures Named(m, Apply(m, w, e).disk, alias, generation, credential)
  {
    if Draft(m, w, e).Some? {
      DraftKeepsNamed(m, w, e, alias, generation, credential);
    }
    forall v | v in Apply(m, w, e).disk.DocumentFile(m.profile).Versions()
      ensures alias in v.oauth && v.oauth[alias].generation >= generation
      ensures v.oauth[alias].generation == generation ==> v.oauth[alias].credential in {None, Some(credential)}
    {
      StepVersions(m, w, e, v);
    }
  }

  lemma QuarantineDropsCredential(m: Manager, w: World, e: Event)
    requires Draft(m, w, e).Some? && e.BeginLogin? && w.disk.Recovery(m.SlotOf(e.alias))
    ensures Draft(m, w, e).value.credential.None?
  {
  }

  /**
   A generation names one credential: whatever is borrowed at a generation is
   all that can ever be borrowed at it, however often the machine loses power.
   */
  lemma GenerationNamesMaterial(
      m: Manager, w: World, w': World, binding: Binding, later: Binding, now: nat, thence: nat)
    requires Reachable(m, w) && Leads(m, w, w') && later.alias == binding.alias
    requires Borrow(m, w.disk, binding, now).Some? && Borrow(m, w'.disk, later, thence).Some?
    requires w'.disk.Current(m.profile).oauth[binding.alias].generation
      == w.disk.Current(m.profile).oauth[binding.alias].generation
    ensures Borrow(m, w'.disk, later, thence) == Borrow(m, w.disk, binding, now)
  {
    var account := w.disk.Current(m.profile).oauth[binding.alias];
    ReachableIsInOrder(m, w);
    forall v | v in w.disk.DocumentFile(m.profile).Versions()
      ensures binding.alias in v.oauth && v.oauth[binding.alias] == account
    {
      Settled(m, w, binding.alias, v);
    }
    var events :| w' == Run(m, w, events);
    RunKeepsNamed(m, w, events, binding.alias, account.generation, account.credential.value);
    assert w'.disk.Current(m.profile) in w'.disk.DocumentFile(m.profile).Versions();
  }

  lemma {:induction false} RunKeepsNamed(
      m: Manager, w: World, events: seq<Event>, alias: string, generation: nat, credential: Credential)
    requires Inv(m, w) && Named(m, w.disk, alias, generation, credential)
    ensures Named(m, Run(m, w, events).disk, alias, generation, credential)
  {
    if events != [] {
      var before := events[..|events| - 1];
      RunKeepsNamed(m, w, before, alias, generation, credential);
      RunsKeepInv(m, w, before);
      StepKeepsNamed(m, Run(m, w, before), events[|events| - 1], alias, generation, credential);
    }
  }
}
