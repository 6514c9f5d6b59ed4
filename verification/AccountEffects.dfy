/**
 What each transaction of the authorization lifecycle leaves behind when its
 publication is done, when it gets as far as publishing, and what is lent then.
 */
module AccountEffects {
  import opened Prelude
  import opened Records
  import opened Store
  import opened Publication
  import opened Accounts
  import opened AccountSafety
  import AccountGuarantees

  /** The step publishes an account, and the publication is done. */
  predicate Succeeds(m: Manager, w: World, e: Event) {
    Draft(m, w, e).Some? && Published(m, w, Draft(m, w, e).value, EnvOf(e).io).outcome == Done
  }

  /** Every version that may survive holds this account, and it reads without the recovery flag. */
  ghost predicate Settles(m: Manager, d: Disk, alias: string, account: Account) {
    && !d.Recovery(m.SlotOf(alias))
    && forall v :: v in d.DocumentFile(m.profile).Versions() ==> alias in v.oauth && v.oauth[alias] == account
  }

  function Visible(m: Manager, d: Disk): map<string, Account> { d.Current(m.profile).oauth }

  lemma SuccessSettles(m: Manager, w: World, e: Event)
    requires Inv(m, w) && Succeeds(m, w, e)
    ensures var draft := Draft(m, w, e).value;
            && Settles(m, Apply(m, w, e).disk, draft.alias, draft)
            && Visible(m, Apply(m, w, e).disk) == Visible(m, w.disk)[draft.alias := draft]
  {
    hide Draft, Disk.Publish, NextOps, Issue, Idle;
    PublishedAccounts(m, w, Draft(m, w, e).value, EnvOf(e).io);
  }

  /** Counters that can still be counted up. */
  predicate Countable(account: Account) { account.revision < MAX_U64 && account.generation < MAX_U64 }

  // ---- Lending ----

  /** A binding is exactly the client and principal that the account is bound to. */
  lemma BindIsExact(m: Manager, d: Disk, alias: string)
    ensures var accounts := Visible(m, d);
            && (Bind(m, d, alias).Some? <==>
                  alias in accounts && accounts[alias].identity.Some? && Accepted(m, d, alias))
            && (Bind(m, d, alias).Some? ==>
                  Bind(m, d, alias).value
                  == Accounts.Binding(alias, accounts[alias].client, accounts[alias].identity.value))
  {
  }

  /**
   A borrow lends the stored credential exactly when the record is settled, is
   bound to the pinned client and principal, satisfies its driver, and has not
   expired.
   */
  lemma BorrowIsExact(m: Manager, d: Disk, binding: Accounts.Binding, now: nat)
    ensures var accounts, alias := Visible(m, d), binding.alias;
            && (Borrow(m, d, binding, now).Some? <==>
                  && alias in accounts && !d.Recovery(m.SlotOf(alias))
                  && accounts[alias].client == binding.client && accounts[alias].identity == Some(binding.identity)
                  && accounts[alias].credential.Some?
                  && m.validates(binding.client, Some(binding.identity), accounts[alias].credential)
                  && m.lends(accounts[alias].credential.value)
                  && (accounts[alias].credential.value.expiresAt.Some? ==>
                        now < accounts[alias].credential.value.expiresAt.value))
            && (Borrow(m, d, binding, now).Some? ==> Borrow(m, d, binding, now) == accounts[alias].credential)
  {
  }

  /** The account is bound to this client and principal, and exactly this credential can be borrowed from it. */
  ghost predicate Lends(m: Manager, d: Disk, alias: string, client: string, identity: Identity, c: Credential) {
    && Bind(m, d, alias) == Some(Accounts.Binding(alias, client, identity))
    && forall now: nat :: (c.expiresAt.Some? ==> now < c.expiresAt.value) && m.lends(c) ==>
         Borrow(m, d, Accounts.Binding(alias, client, identity), now) == Some(c)
  }

  lemma ActiveLends(m: Manager, d: Disk, alias: string, account: Account, identity: Identity, c: Credential)
    requires Settles(m, d, alias, account) && account.identity == Some(identity) && account.credential == Some(c)
    requires m.validates(account.client, account.identity, account.credential)
    ensures Lends(m, d, alias, account.client, identity, c)
  {
    assert d.Current(m.profile) in d.DocumentFile(m.profile).Versions();
  }

  /** What reads of another alias is not disturbed by a transaction, done or not. */
  lemma OtherAliasesAreUndisturbed(m: Manager, w: World, e: Event, alias: string)
    requires Inv(m, w) && Draft(m, w, e).Some? && Draft(m, w, e).value.alias != alias
    ensures Load(m, Apply(m, w, e).disk, alias) == Load(m, w.disk, alias)
    ensures Apply(m, w, e).disk.Recovery(m.SlotOf(alias)) == w.disk.Recovery(m.SlotOf(alias))
  {
    hide Draft, Disk.Publish, NextOps, Issue, Idle;
    PublishedAccounts(m, w, Draft(m, w, e).value, EnvOf(e).io);
  }

  // ---- Logout ----

  /**
   A logout publishes exactly when it has the lock, and there is an account that
   its driver accepts and that can be counted up.
   */
  lemma LogoutPublishes(m: Manager, w: World, alias: string, env: Env)
    ensures var accounts := Visible(m, w.disk);
            Draft(m, w, Logout(alias, env)).Some? <==>
              && env.granted && !Locked(w, alias)
              && alias in accounts && Accepted(m, w.disk, alias) && Countable(accounts[alias])
  {
  }

  /**
   A logout leaves nothing to lend, to renew or to finish: every version that may
   survive holds the account signed out, without a credential, a pending
   replacement or a ticket, and bound as before.
   */
  lemma LogoutLeavesNothing(m: Manager, w: World, alias: string, env: Env)
    requires Inv(m, w) && Succeeds(m, w, Logout(alias, env))
    ensures alias in Visible(m, w.disk)
    ensures var was, d := Visible(m, w.disk)[alias], Apply(m, w, Logout(alias, env)).disk;
            && !d.Recovery(m.SlotOf(alias))
            && forall v :: v in d.DocumentFile(m.profile).Versions() ==>
                 && alias in v.oauth
                 && v.oauth[alias].credential.None? && v.oauth[alias].pending.None? && v.oauth[alias].attempt.None?
                 && v.oauth[alias].state == SignedOut
                 && v.oauth[alias].client == was.client && v.oauth[alias].identity == was.identity
  {
    hide Disk.Publish, Apply;
    SuccessSettles(m, w, Logout(alias, env));
    VisibleOk(m, w);
    assert AccountOk(m, w, alias, Visible(m, w.disk)[alias]);
  }

  /**
   A logout of an alias without an account drops the marker that a failed first
   login may have left, and changes no record and no other marker.
   */
  lemma LogoutForgets(m: Manager, w: World, alias: string, env: Env)
    requires Inv(m, w) && env.granted && !Locked(w, alias) && alias !in Visible(m, w.disk)
    requires ValidAlias(alias) && w.disk.ReadError(m.profile, env.io).None? && env.io.disarm.Completes?
    ensures var w' := Apply(m, w, Logout(alias, env));
            && !w'.disk.Recovery(m.SlotOf(alias)) && Visible(m, w'.disk) == Visible(m, w.disk)
            && forall slot :: slot != m.SlotOf(alias) ==> w'.disk.Recovery(slot) == w.disk.Recovery(slot)
  {
    hide Disk.Sound, VersionsOk, OpsOk, SpentOk, Accepted, Disk.ReadError, ValidAlias;
  }

  /** No version that may survive holds anything to lend or to renew, and no refresh is under way. */
  ghost predicate SignedOff(m: Manager, w: World, alias: string) {
    && (forall v :: v in w.disk.DocumentFile(m.profile).Versions() ==>
          alias in v.oauth && v.oauth[alias].credential.None? && v.oauth[alias].pending.None?)
    && !Locked(w, alias)
  }

  /** The event is the end of a login of this alias. */
  predicate EndsLogin(w: World, e: Event, alias: string) {
    e.FinishLogin? && e.id in w.ops && w.ops[e.id].Alias() == alias
  }

  lemma DraftKeepsSignedOff(m: Manager, w: World, e: Event, alias: string)
    requires Inv(m, w) && SignedOff(m, w, alias) && !EndsLogin(w, e, alias)
    requires Draft(m, w, e).Some? && Draft(m, w, e).value.alias == alias
    ensures Draft(m, w, e).value.credential.None? && Draft(m, w, e).value.pending.None?
    ensures !e.StartRefresh? && !e.RenewPending?
  {
    DraftEvolves(m, w, e);
    assert w.disk.Current(m.profile) in w.disk.DocumentFile(m.profile).Versions();
  }

  lemma IdleKeepsSignedOff(m: Manager, w: World, e: Event, alias: string)
    requires Inv(m, w) && SignedOff(m, w, alias)
    ensures !Locked(Idle(m, w, e), alias)
  {
    hide Disk.ClearUnpublished, Disk.PowerLoss, Accepted, SpentOk, Disk.Sound, VersionsOk, HeldOn;
    if e.StartRefresh? && e.alias in Visible(m, w.disk) {
      VisibleOk(m, w);
      assert AccountOk(m, w, e.alias, Visible(m, w.disk)[e.alias]);
    }
    assert w.disk.Current(m.profile) in w.disk.DocumentFile(m.profile).Versions();
  }

  lemma TableKeepsSignedOff(m: Manager, w: World, e: Event, alias: string)
    requires Inv(m, w) && SignedOff(m, w, alias) && !EndsLogin(w, e, alias)
    ensures !Locked(Apply(m, w, e), alias)
  {
    hide Disk.Publish, Draft, Idle, NextOps, Issue, VersionsOk, SpentOk, Disk.Sound, Entitled;
    if Draft(m, w, e).None? {
      IdleKeepsSignedOff(m, w, e, alias);
    } else if Locked(Apply(m, w, e), alias) {
      var draft := Draft(m, w, e).value;
      var w' := Apply(m, w, e);
      var id :| id in w'.ops && w'.ops[id].Holds() && w'.ops[id].Alias() == alias;
      DraftEntitled(m, w, e);
      NextOp(w, e, draft, Published(m, w, draft, EnvOf(e).io).outcome == Done, Taken(m, w, e, draft), id);
      if draft.alias == alias {
        DraftKeepsSignedOff(m, w, e, alias);
      }
    }
  }

  lemma StepKeepsSignedOff(m: Manager, w: World, e: Event, alias: string)
    requires Inv(m, w) && SignedOff(m, w, alias) && !EndsLogin(w, e, alias)
    ensures SignedOff(m, Apply(m, w, e), alias)
  {
    hide Draft, Apply, Inv, Locked;
    TableKeepsSignedOff(m, w, e, alias);
    assert w.disk.Current(m.profile) in w.disk.DocumentFile(m.profile).Versions();
    if Draft(m, w, e).Some? && Draft(m, w, e).value.alias == alias {
      DraftKeepsSignedOff(m, w, e, alias);
    }
    forall v | v in Apply(m, w, e).disk.DocumentFile(m.profile).Versions()
      ensures alias in v.oauth && v.oauth[alias].credential.None? && v.oauth[alias].pending.None?
    {
      AccountGuarantees.StepVersions(m, w, e, v);
    }
  }

  lemma {:induction false} RunKeepsSignedOff(m: Manager, w: World, events: seq<Event>, alias: string)
    requires Inv(m, w) && SignedOff(m, w, alias)
    requires forall n :: 0 <= n < |events| ==> !EndsLogin(Run(m, w, events[..n]), events[n], alias)
    ensures SignedOff(m, Run(m, w, events), alias)
  {
    if events != [] {
      var before := events[..|events| - 1];
      forall n | 0 <= n < |before| ensures !EndsLogin(Run(m, w, before[..n]), before[n], alias) {
        assert before[..n] == events[..n];
      }
      RunKeepsSignedOff(m, w, before, alias);
      RunsKeepInv(m, w, before);
      StepKeepsSignedOff(m, Run(m, w, before), events[|events| - 1], alias);
    }
  }

  /**
   After a logout nothing of the account is lent until a login of it ends,
   whatever else happens and however often power is lost.
   */
  lemma LogoutLastsUntilLogin(
      m: Manager, w: World, alias: string, env: Env, events: seq<Event>, binding: Accounts.Binding, now: nat)
    requires Reachable(m, w) && Succeeds(m, w, Logout(alias, env)) && binding.alias == alias
    requires var w' := Apply(m, w, Logout(alias, env));
             forall n :: 0 <= n < |events| ==> !EndsLogin(Run(m, w', events[..n]), events[n], alias)
    ensures Borrow(m, Run(m, Apply(m, w, Logout(alias, env)), events).disk, binding, now).None?
  {
    hide Disk.Publish, Inv, Borrow;
    var e := Logout(alias, env);
    var w' := Apply(m, w, e);
    ReachableIsInOrder(m, w);
    StepKeepsInv(m, w, e);
    LogoutLeavesNothing(m, w, alias, env);
    LogoutUnlocks(m, w, alias, env);
    RunKeepsSignedOff(m, w', events, alias);
    var d := Run(m, w', events).disk;
    assert d.Current(m.profile) in d.DocumentFile(m.profile).Versions();
    BorrowIsExact(m, d, binding, now);
  }

  lemma LogoutUnlocks(m: Manager, w: World, alias: string, env: Env)
    requires Draft(m, w, Logout(alias, env)).Some?
    ensures !Locked(Apply(m, w, Logout(alias, env)), alias)
  {
  }

  // ---- Login ----

  /**
   A login begins exactly with the lock, a new ticket, and an account that its
   driver accepts, that has no pending replacement, and whose client is the one
   asked for unless the driver registers clients.
   */
  lemma BeginLoginPublishes(m: Manager, w: World, id: nat, alias: string, client: string, attempt: string, env: Env)
    ensures var accounts, settled := Visible(m, w.disk), !w.disk.Recovery(m.SlotOf(alias));
            Draft(m, w, BeginLogin(id, alias, client, attempt, env)).Some? <==>
              && env.granted && !Locked(w, alias) && id !in w.ops && attempt !in w.attempts
              && Accepted(m, w.disk, alias)
              && (alias in accounts ==>
                    && (accounts[alias].client == client || m.dynamic)
                    && (settled ==> accounts[alias].pending.None?)
                    && accounts[alias].revision < MAX_U64)
  {
  }

  /**
   A login that begins hands its ticket to the account and changes nothing else
   of a settled one, so that its credential is lent on; of one in recovery it
   keeps only what it is bound to.
   */
  lemma BeginLoginKeeps(m: Manager, w: World, id: nat, alias: string, client: string, attempt: string, env: Env)
    requires Inv(m, w) && Succeeds(m, w, BeginLogin(id, alias, client, attempt, env))
    ensures var w' := Apply(m, w, BeginLogin(id, alias, client, attempt, env));
            && alias in Visible(m, w'.disk) && Settles(m, w'.disk, alias, Visible(m, w'.disk)[alias])
            && var account := Visible(m, w'.disk)[alias];
               && account.attempt == Some(attempt)
               && w'.ops == w.ops[id := Login(alias, client, account.client, attempt)]
               && (alias !in Visible(m, w.disk) ==>
                     && account.client == client && account.identity.None?
                     && account.credential.None? && account.pending.None?)
               && (alias in Visible(m, w.disk) ==>
                     var was := Visible(m, w.disk)[alias];
                     && account.client == was.client && account.identity == was.identity && account.pending.None?
                     && account.credential == (if w.disk.Recovery(m.SlotOf(alias)) then None else was.credential))
    ensures forall binding: Accounts.Binding, now ::
              Borrow(m, Apply(m, w, BeginLogin(id, alias, client, attempt, env)).disk, binding, now)
              == Borrow(m, w.disk, binding, now)
  {
    var e := BeginLogin(id, alias, client, attempt, env);
    hide Disk.Publish, Apply, Borrow, Issue;
    BeginLoginSettles(m, w, id, alias, client, attempt, env);
    forall binding: Accounts.Binding, now
      ensures Borrow(m, Apply(m, w, e).disk, binding, now) == Borrow(m, w.disk, binding, now)
    {
      BorrowIsExact(m, w.disk, binding, now);
      BorrowIsExact(m, Apply(m, w, e).disk, binding, now);
      if binding.alias != alias {
        OtherAliasesAreUndisturbed(m, w, e, binding.alias);
      }
    }
  }

  lemma BeginLoginSettles(m: Manager, w: World, id: nat, alias: string, client: string, attempt: string, env: Env)
    requires Inv(m, w) && Succeeds(m, w, BeginLogin(id, alias, client, attempt, env))
    ensures Draft(m, w, BeginLogin(id, alias, client, attempt, env)).value.alias == alias
    ensures var w' := Apply(m, w, BeginLogin(id, alias, client, attempt, env));
            && alias in Visible(m, w'.disk) && Settles(m, w'.disk, alias, Visible(m, w'.disk)[alias])
            && Visible(m, w'.disk) == Visible(m, w.disk)[alias := Visible(m, w'.disk)[alias]]
            && var account := Visible(m, w'.disk)[alias];
               && account.attempt == Some(attempt)
               && w'.ops == w.ops[id := Login(alias, client, account.client, attempt)]
               && (alias !in Visible(m, w.disk) ==>
                     && account.client == client && account.identity.None?
                     && account.credential.None? && account.pending.None?)
               && (alias in Visible(m, w.disk) ==>
                     var was := Visible(m, w.disk)[alias];
                     && account.client == was.client && account.identity == was.identity && account.pending.None?
                     && account.credential == (if w.disk.Recovery(m.SlotOf(alias)) then None else was.credential))
  {
    hide Disk.Publish;
    SuccessSettles(m, w, BeginLogin(id, alias, client, attempt, env));
    VisibleOk(m, w);
    assert alias in Visible(m, w.disk) ==> AccountOk(m, w, alias, Visible(m, w.disk)[alias]);
  }

  /** The login under way still owns its account: the account is settled and names its ticket. */
  predicate Owns(m: Manager, w: World, id: nat) {
    && id in w.ops && w.ops[id].Login? && !Locked(w, w.ops[id].alias)
    && var alias := w.ops[id].alias;
       && alias in Visible(m, w.disk) && !w.disk.Recovery(m.SlotOf(alias)) && Accepted(m, w.disk, alias)
       && Visible(m, w.disk)[alias].attempt == Some(w.ops[id].attempt)
  }

  /** A registered client is kept exactly once, for a login that began with the initial client on an unbound account. */
  lemma RetainClientPublishes(m: Manager, w: World, id: nat, client: string, env: Env)
    ensures Draft(m, w, RetainClient(id, client, env)).Some? <==>
              && env.granted && Owns(m, w, id) && m.dynamic && m.validates(client, None, None)
              && var op, account := w.ops[id], Visible(m, w.disk)[w.ops[id].alias];
                 && op.client == op.initial && account.client == op.initial && client != op.initial
                 && account.identity.None? && account.revision < MAX_U64
  {
  }

  lemma RetainClientKeeps(m: Manager, w: World, id: nat, client: string, env: Env)
    requires Inv(m, w) && Succeeds(m, w, RetainClient(id, client, env))
    ensures var alias, d := w.ops[id].Alias(), Apply(m, w, RetainClient(id, client, env)).disk;
            && alias in Visible(m, w.disk)
            && var was := Visible(m, w.disk)[alias];
               Settles(m, d, alias, was.(client := client, revision := was.revision + 1))
  {
    hide Disk.Publish, Apply;
    SuccessSettles(m, w, RetainClient(id, client, env));
    VisibleOk(m, w);
    assert AccountOk(m, w, w.ops[id].Alias(), Visible(m, w.disk)[w.ops[id].Alias()]);
  }

  /**
   A login ends by publishing exactly when it still owns its account, the answer
   carries a credential, client and principal are those the account is bound
   to, the driver accepts the grant, and no other alias claims the principal.
   */
  lemma FinishLoginPublishes(m: Manager, w: World, id: nat, identity: Identity, answer: Answer, env: Env)
    ensures Draft(m, w, FinishLogin(id, identity, answer, env)).Some? <==>
              && env.granted && Owns(m, w, id) && !answer.refresh.SameToken? && answer.expiresAt != Some(0)
              && var op, account, c := w.ops[id], Visible(m, w.disk)[w.ops[id].alias], Received(w, answer, None).value;
                 && (m.dynamic || account.client == op.client)
                 && (account.identity.Some? ==> account.identity.value == identity)
                 && m.validates(account.client, Some(identity), Some(c))
                 && Available(m, w.disk, op.alias, account.client, identity, env.io)
                 && Countable(account)
  {
    hide Available, Accepted, Locked, Disk.Recovery;
  }

  /** A login that ends well makes the account active for its principal, and what was granted is lent. */
  lemma FinishedLoginLends(m: Manager, w: World, id: nat, identity: Identity, answer: Answer, env: Env)
    requires Inv(m, w) && Succeeds(m, w, FinishLogin(id, identity, answer, env))
    ensures var e := FinishLogin(id, identity, answer, env);
            var w', alias := Apply(m, w, e), w.ops[id].Alias();
            && alias in Visible(m, w.disk) && Received(w, answer, None).Some?
            && var client, c := Visible(m, w.disk)[alias].client, Received(w, answer, None).value;
               && Lends(m, w'.disk, alias, client, identity, c)
               && c.serial == |w.issued| && c.expiresAt == answer.expiresAt
               && (answer.refresh.NewToken? <==> c.refresh == Some(|w.issued|))
               && (answer.refresh.NoToken? <==> c.refresh.None?)
               && alias in Visible(m, w'.disk) && Settles(m, w'.disk, alias, Visible(m, w'.disk)[alias])
               && Visible(m, w'.disk)[alias].state == Active
               && Visible(m, w'.disk)[alias].attempt.None? && id !in w'.ops
  {
    hide Disk.Publish, Available, Lends, Settles;
    var e := FinishLogin(id, identity, answer, env);
    SuccessSettles(m, w, e);
    VisibleOk(m, w);
    assert AccountOk(m, w, w.ops[id].Alias(), Visible(m, w.disk)[w.ops[id].Alias()]);
    ActiveLends(m, Apply(m, w, e).disk, w.ops[id].Alias(), Draft(m, w, e).value, identity,
                Received(w, answer, None).value);
  }

  /** A dropped ticket is taken out exactly when the login gave up and its settled account still names it. */
  lemma DropLoginPublishes(m: Manager, w: World, id: nat, env: Env)
    ensures Draft(m, w, DropLogin(id, env)).Some? <==>
              && env.granted && id in w.ops && !w.ops[id].Holds() && !Locked(w, w.ops[id].Alias())
              && var alias := w.ops[id].Alias();
                 && alias in Visible(m, w.disk) && !w.disk.Recovery(m.SlotOf(alias))
                 && Visible(m, w.disk)[alias].attempt == Some(w.ops[id].attempt)
                 && Visible(m, w.disk)[alias].revision < MAX_U64
  {
  }

  // ---- Refresh ----

  /** A refresh starts exactly with the lock on a settled account that holds a credential with a refresh token. */
  lemma StartRefreshPublishes(m: Manager, w: World, id: nat, alias: string, env: Env)
    ensures var accounts := Visible(m, w.disk);
            Draft(m, w, StartRefresh(id, alias, env)).Some? <==>
              && env.granted && !Locked(w, alias) && id !in w.ops
              && alias in accounts && !w.disk.Recovery(m.SlotOf(alias)) && Accepted(m, w.disk, alias)
              && accounts[alias].pending.None? && accounts[alias].credential.Some?
              && accounts[alias].credential.value.refresh.Some? && Countable(accounts[alias])
  {
  }

  /** While it is being renewed an account lends nothing; the refresh holds its lock and the credential it took. */
  lemma RefreshSuspends(m: Manager, w: World, id: nat, alias: string, env: Env)
    requires Inv(m, w) && Succeeds(m, w, StartRefresh(id, alias, env))
    ensures var w' := Apply(m, w, StartRefresh(id, alias, env));
            && alias in Visible(m, w.disk) && Visible(m, w.disk)[alias].credential.Some?
            && alias in Visible(m, w'.disk) && Settles(m, w'.disk, alias, Visible(m, w'.disk)[alias])
            && var was, account := Visible(m, w.disk)[alias], Visible(m, w'.disk)[alias];
               && account.client == was.client && account.identity == was.identity && Stripped(account)
               && account.credential.None?
               && w'.ops == w.ops[id := Renewing(account, was.credential.value)]
               && w'.renewed == w.renewed + [was.credential.value.serial]
  {
    hide Disk.Publish;
    SuccessSettles(m, w, StartRefresh(id, alias, env));
    RefreshTakes(m, w, StartRefresh(id, alias, env));
    RefreshAccount(m, w, StartRefresh(id, alias, env));
    VisibleOk(m, w);
    assert AccountOk(m, w, alias, Visible(m, w.disk)[alias]);
  }

  /**
   A verified renewal is published exactly for the principal that the account is
   bound to, with a credential that the driver accepts. Since the refresh holds
   the lock, the account is as it left it.
   */
  lemma RenewVerifiedPublishes(m: Manager, w: World, id: nat, identity: Identity, answer: Answer, env: Env)
    requires Inv(m, w)
    ensures Draft(m, w, RenewVerified(id, identity, answer, env)).Some? <==>
              && env.granted && id in w.ops && w.ops[id].Renewing?
              && var account, previous := w.ops[id].account, w.ops[id].previous;
                 && account.identity == Some(identity) && answer.expiresAt != Some(0)
                 && Accepted(m, w.disk, account.alias)
                 && m.validates(account.client, Some(identity), Received(w, answer, Some(previous)))
                 && Countable(account)
  {
    hide Accepted, VersionsOk, SpentOk, Disk.Sound, Apart, Spent;
    if id in w.ops && w.ops[id].Renewing? {
      assert OpOk(m, w, w.ops[id]);
    }
  }

  /** A verified renewal resumes lending, with the credential of its answer. */
  lemma RenewalResumes(m: Manager, w: World, id: nat, identity: Identity, answer: Answer, env: Env)
    requires Inv(m, w) && Succeeds(m, w, RenewVerified(id, identity, answer, env))
    ensures var w' := Apply(m, w, RenewVerified(id, identity, answer, env));
            && id in w.ops && w.ops[id].Renewing? && Received(w, answer, Some(w.ops[id].previous)).Some?
            && var account, c := w.ops[id].account, Received(w, answer, Some(w.ops[id].previous)).value;
               && Lends(m, w'.disk, account.alias, account.client, identity, c)
               && c.serial == |w.issued| && c.expiresAt == answer.expiresAt
               && (answer.refresh.SameToken? ==> c.refresh == w.ops[id].previous.refresh)
               && id !in w'.ops && account.alias in Visible(m, w'.disk)
               && Settles(m, w'.disk, account.alias, Visible(m, w'.disk)[account.alias])
               && Visible(m, w'.disk)[account.alias].state == Active
  {
    hide Disk.Publish, Lends, Settles, Accepted;
    var e := RenewVerified(id, identity, answer, env);
    SuccessSettles(m, w, e);
    assert OpOk(m, w, w.ops[id]);
    var c := Received(w, answer, Some(w.ops[id].previous)).value;
    ActiveLends(m, Apply(m, w, e).disk, w.ops[id].account.alias, Draft(m, w, e).value, identity, c);
  }

  /** A pending replacement is stored whatever the driver will make of it, unless the revision is exhausted. */
  lemma RenewPendingPublishes(m: Manager, w: World, id: nat, answer: Answer, env: Env)
    ensures Draft(m, w, RenewPending(id, answer, env)).Some? <==>
              env.granted && id in w.ops && w.ops[id].Renewing? && w.ops[id].account.revision < MAX_U64
  {
  }

  /** A stored pending replacement is not lent, and the refresh goes on to verify it under the lock. */
  lemma PendingIsStored(m: Manager, w: World, id: nat, answer: Answer, env: Env)
    requires Inv(m, w) && Succeeds(m, w, RenewPending(id, answer, env))
    ensures var w' := Apply(m, w, RenewPending(id, answer, env));
            && id in w.ops && w.ops[id].Renewing?
            && var account := w.ops[id].account.(pending := Received(w, answer, Some(w.ops[id].previous)),
                                                 revision := w.ops[id].account.revision + 1);
               && account.pending.Some? && account.credential.None?
               && Settles(m, w'.disk, account.alias, account)
               && w'.ops == w.ops[id := Verifying(account)]
  {
    hide Disk.Publish, Settles, Accepted;
    var e := RenewPending(id, answer, env);
    SuccessSettles(m, w, e);
    assert OpOk(m, w, w.ops[id]);
    VisibleOk(m, w);
    assert AccountOk(m, w, w.ops[id].account.alias, w.ops[id].account);
  }

  /**
   A refresh of an account with a settled pending replacement sends nothing: it
   resumes the verification, also after a kill or a loss of power.
   */
  lemma PendingIsResumed(m: Manager, w: World, id: nat, alias: string, env: Env)
    requires alias in Visible(m, w.disk) && !w.disk.Recovery(m.SlotOf(alias)) && Visible(m, w.disk)[alias].pending.Some?
    requires env.granted && !Locked(w, alias) && id !in w.ops && Accepted(m, w.disk, alias)
    ensures Apply(m, w, StartRefresh(id, alias, env)) == w.(ops := w.ops[id := Verifying(Visible(m, w.disk)[alias])])
  {
  }

  /**
   A pending replacement is put in force exactly when it was confirmed for the
   bound principal and the driver accepts it.
   */
  lemma VerifiedPublishes(m: Manager, w: World, id: nat, identity: Identity, env: Env)
    requires Inv(m, w)
    ensures Draft(m, w, Verified(id, identity, env)).Some? <==>
              && env.granted && id in w.ops && w.ops[id].Verifying?
              && var account := w.ops[id].account;
                 && account.identity == Some(identity) && Accepted(m, w.disk, account.alias)
                 && m.validates(account.client, account.identity, account.pending) && Countable(account)
  {
    hide Accepted, VersionsOk, SpentOk, Disk.Sound, Apart, Spent;
    if id in w.ops && w.ops[id].Verifying? {
      assert OpOk(m, w, w.ops[id]);
    }
  }

  /** A confirmed replacement is lent from then on. */
  lemma VerifiedLends(m: Manager, w: World, id: nat, identity: Identity, env: Env)
    requires Inv(m, w) && Succeeds(m, w, Verified(id, identity, env))
    ensures var w' := Apply(m, w, Verified(id, identity, env));
            && id in w.ops && w.ops[id].Verifying? && w.ops[id].account.pending.Some?
            && var account := w.ops[id].account;
               && Lends(m, w'.disk, account.alias, account.client, identity, account.pending.value)
               && id !in w'.ops && account.alias in Visible(m, w'.disk)
               && Settles(m, w'.disk, account.alias, Visible(m, w'.disk)[account.alias])
               && Visible(m, w'.disk)[account.alias].state == Active && Visible(m, w'.disk)[account.alias].pending.None?
  {
    hide Disk.Publish, Lends, Settles, Accepted;
    var e := Verified(id, identity, env);
    SuccessSettles(m, w, e);
    assert OpOk(m, w, w.ops[id]);
    ActiveLends(m, Apply(m, w, e).disk, w.ops[id].account.alias, Draft(m, w, e).value, identity,
                w.ops[id].account.pending.value);
  }

  /** The refresh of this operation ends here, however it ends. */
  predicate EndsRefresh(w: World, e: Event, id: nat) {
    && id in w.ops
    && match e
       case RenewFailed(n) => n == id && w.ops[id].Renewing?
       case RenewVerified(n, _, _, _) => n == id && w.ops[id].Renewing?
       case Verified(n, _, _) => n == id && w.ops[id].Verifying?
       case Kill(n) => n == id
       case PowerLoss(_) => true
       case _ => false
  }

  /**
   A refresh that ends, whether it succeeds, is refused, fails, is killed or loses
   power, gives up its operation, and with it the lock of its account.
   */
  lemma RefreshReleases(m: Manager, w: World, e: Event, id: nat)
    requires Inv(m, w) && EndsRefresh(w, e, id) && w.ops[id].Holds()
    ensures id !in Apply(m, w, e).ops && !Locked(Apply(m, w, e), w.ops[id].Alias())
  {
    hide Disk.Publish, Issue, DraftRenewed, DraftVerified, VersionsOk, SpentOk, HeldOn, Disk.Sound, Disk.PowerLoss;
    var w' := Apply(m, w, e);
    assert forall other :: other in w'.ops ==> other != id && other in w.ops && w'.ops[other] == w.ops[other];
  }
}
