/**
 Runs of the account lifecycle in which a refresh token is sent twice, and in
 which a generation outlives its credential.
 */
module AccountWitnesses {
  import opened Prelude
  import opened Records
  import opened Store
  import opened StoreWitnesses
  import opened Accounts
  import opened AccountSafety

  const CLIENT := "c"
  const WHO := Identity("s", None)

  /** A driver that accepts everything, over a store in which everything fits. */
  const M := Manager(PROVIDER, false, (c, i, g) => true, c => true, ROOMY)

  function Ticket(digit: char): string { seq(32, _ => digit) }

  const HOME := Home(OAuth)

  function AccountDocument(account: Option<Account>, revision: nat): Document {
    Document(PROVIDER, None, revision, if account.Some? then map[ALIAS := account.value] else map[], map[], map[])
  }

  /** The store holds at most this one account, written `revision` times, perhaps in recovery. */
  ghost predicate Holds(d: Disk, account: Option<Account>, revision: nat, recovery: bool) {
    Alone(d, OAuth, AccountDocument(account, revision), recovery)
  }

  lemma Published(d: Disk, account: Option<Account>, revision: nat, recovery: bool, draft: Account, io: Io)
    requires Holds(d, account, revision, recovery) && revision < 100 && draft.Valid(PROVIDER, ALIAS)
    requires io in {Faultless, UNSETTLED}
    ensures var r := d.Publish(ROOMY, PROVIDER, ALIAS, AccountRecord(draft), io);
            && r.outcome == (if io == Faultless then Done else Failed(PersistenceUncertain))
            && Holds(r.disk, Some(draft), revision + 1, io == UNSETTLED)
  {
    hide Disk.Publish, Alone, Account.Valid;
    var document := AccountDocument(account, revision);
    AlonePublished(d, document, recovery, AccountRecord(draft), io);
    assert Bump(document.Put(ALIAS, AccountRecord(draft))) == AccountDocument(Some(draft), revision + 1);
  }

  /** The account after `revision` publications. */
  function Held(attempt: Option<string>, credential: Option<Credential>, revision: nat, generation: nat): Account {
    Account(PROVIDER, ALIAS, CLIENT, if generation > 0 then Some(WHO) else None, revision, generation, attempt,
            if credential.Some? then Active else if generation > 0 then NeedsReauthorization else SignedOut,
            credential, None)
  }

  /** One step that publishes, in terms of what it leaves. */
  lemma OneStep(w: World, e: Event, account: Option<Account>, revision: nat, recovery: bool, draft: Account)
    requires Holds(w.disk, account, revision, recovery) && revision < 100
    requires Draft(M, w, e) == Some(draft) && draft.Valid(PROVIDER, ALIAS)
    requires EnvOf(e).io in {Faultless, UNSETTLED}
    ensures var w', done, taken := Apply(M, w, e), EnvOf(e).io == Faultless, Taken(M, w, e, draft);
            && Holds(w'.disk, Some(draft), revision + 1, !done)
            && w'.ops == NextOps(w, e, draft, done, taken)
            && w'.issued == Issue(w, e, draft)
            && w'.renewed == (if done && taken.Some? then w.renewed + [taken.value.serial] else w.renewed)
            && w'.attempts == (if e.BeginLogin? then w.attempts + {e.attempt} else w.attempts)
  {
    hide Disk.Publish, Holds, NextOps, Issue, Taken;
    Published(w.disk, account, revision, recovery, draft, EnvOf(e).io);
  }

  lemma Loads(d: Disk, account: Account, revision: nat, recovery: bool)
    requires Holds(d, Some(account), revision, recovery)
    ensures Load(M, d, ALIAS) == Some(if recovery then Quarantine(account) else account) && Accepted(M, d, ALIAS)
    ensures d.Recovery(M.SlotOf(ALIAS)) == recovery
  {
  }

  lemma Lists(d: Disk, account: Account, revision: nat, io: Io)
    requires Holds(d, Some(account), revision, false) && io in {Faultless, UNSETTLED}
    ensures Available(M, d, ALIAS, CLIENT, WHO, io)
  {
    hide Document.Valid, Disk.Namespaces, Disk.Sound, Account.Valid;
    AloneIsReadable(d, OAuth, AccountDocument(Some(account), revision), false, io);
    ProviderIsValid();
    var names := d.MarkerNames(PROVIDER, OAuth);
    assert names <= {HOME};
    assert d.Marked(names) == {} && d.Current(PROVIDER).Aliases(OAuth) == {ALIAS};
    assert |{ALIAS}| == 1 && {ALIAS} + {} == {ALIAS};
  }

  const CALM := Env(Faultless, true)

  const BEGIN := BeginLogin(0, ALIAS, CLIENT, Ticket('0'), CALM)

  function Finish(io: Io): Event { FinishLogin(0, WHO, Answer(NewToken, None), Env(io, true)) }

  const FIRST := Credential(0, Some(0), None)

  const SECOND := Credential(1, Some(0), None)

  const ORIGINS := [Origin(ALIAS, Some(WHO), Some(0), None), Origin(ALIAS, Some(WHO), Some(0), Some(0))]

  lemma HeldIsValid(attempt: Option<string>, credential: Option<Credential>, revision: nat, generation: nat)
    requires attempt in {None, Some(Ticket('0')), Some(Ticket('1'))}
    requires credential.Some? ==> generation > 0 && credential.value.Valid()
    ensures Held(attempt, credential, revision, generation).Valid(PROVIDER, ALIAS)
  {
  }

  function Begun(): Account { Held(Some(Ticket('0')), None, 1, 0) }

  function Stored(): Account { Held(None, Some(FIRST), 2, 1) }

  lemma EmptyHolds()
    ensures Holds(EmptyDisk, None, 0, false)
  {
    EmptyIsAlone(OAuth);
  }

  lemma BeginningDraft()
    ensures Draft(M, Start, BEGIN) == Some(Begun()) && Begun().Valid(PROVIDER, ALIAS)
  {
    HeldIsValid(Some(Ticket('0')), None, 1, 0);
  }

  /** The world after a login has begun. */
  lemma Beginning()
    ensures var w := Apply(M, Start, BEGIN);
            && Holds(w.disk, Some(Begun()), 1, false)
            && w.ops == map[0 := Login(ALIAS, CLIENT, CLIENT, Ticket('0'))]
            && w.issued == [] && w.renewed == [] && w.attempts == {Ticket('0')}
  {
    hide Holds, Account.Valid, Draft, Apply, Ticket;
    EmptyHolds();
    BeginningDraft();
    OneStep(Start, BEGIN, None, 0, false, Begun());
  }

  lemma FinishingDraft(w: World, io: Io)
    requires Holds(w.disk, Some(Begun()), 1, false)
    requires w.ops == map[0 := Login(ALIAS, CLIENT, CLIENT, Ticket('0'))]
    requires w.issued == [] && io in {Faultless, UNSETTLED}
    ensures Draft(M, w, Finish(io)) == Some(Stored())
    ensures Taken(M, w, Finish(io), Stored()).None?
  {
    hide Holds, Account.Valid, Available, Accepted, Load, Disk.Recovery;
    Loads(w.disk, Begun(), 1, false);
    Lists(w.disk, Begun(), 1, io);
  }

  /** The world after the login has stored a credential with a new refresh token. */
  lemma Finishing(w: World, io: Io)
    requires Holds(w.disk, Some(Begun()), 1, false)
    requires w.ops == map[0 := Login(ALIAS, CLIENT, CLIENT, Ticket('0'))]
    requires w.issued == [] && w.renewed == [] && io in {Faultless, UNSETTLED}
    ensures var w' := Apply(M, w, Finish(io));
            && Holds(w'.disk, Some(Stored()), 2, io == UNSETTLED)
            && w'.ops == (if io == Faultless then map[] else map[0 := Leaving(ALIAS, Ticket('0'))])
            && w'.issued == ORIGINS[..1] && w'.renewed == [] && w'.attempts == w.attempts
  {
    hide Holds, Account.Valid, Draft, Apply, Held, Taken;
    FinishingDraft(w, io);
    HeldIsValid(None, Some(FIRST), 2, 1);
    OneStep(w, Finish(io), Some(Begun()), 1, false, Stored());
  }

  lemma RefreshDraft(w: World, id: nat, c: Credential, revision: nat, generation: nat)
    requires Holds(w.disk, Some(Held(None, Some(c), revision, generation)), revision, false)
    requires w.ops == map[] && c.refresh.Some? && 0 < generation < 50 && revision < 50
    ensures Draft(M, w, StartRefresh(id, ALIAS, CALM)) == Some(Held(None, None, revision + 1, generation + 1))
    ensures Taken(M, w, StartRefresh(id, ALIAS, CALM), Held(None, None, revision + 1, generation + 1)) == Some(c)
  {
    hide Disk.Recovery, Disk.Sound, Account.Valid;
    Loads(w.disk, Held(None, Some(c), revision, generation), revision, false);
  }

  /** The world after a refresh has taken the credential out and handed it to `driver.renew`. */
  lemma Refreshing(w: World, id: nat, c: Credential, revision: nat, generation: nat)
    requires Holds(w.disk, Some(Held(None, Some(c), revision, generation)), revision, false)
    requires w.ops == map[] && c.refresh.Some? && 0 < generation < 50 && revision < 50
    ensures var w' := Apply(M, w, StartRefresh(id, ALIAS, CALM));
            var account := Held(None, None, revision + 1, generation + 1);
            && Holds(w'.disk, Some(account), revision + 1, false)
            && w'.ops == map[id := Renewing(account, c)]
            && w'.issued == w.issued && w'.renewed == w.renewed + [c.serial]
  {
    hide Holds, Account.Valid, Draft, Apply, Held, Taken;
    RefreshDraft(w, id, c, revision, generation);
    HeldIsValid(None, None, revision + 1, generation + 1);
    OneStep(w, StartRefresh(id, ALIAS, CALM), Some(Held(None, Some(c), revision, generation)), revision, false,
            Held(None, None, revision + 1, generation + 1));
  }

  const RENEW := RenewVerified(1, WHO, Answer(SameToken, None), CALM)

  lemma RenewDraft(w: World)
    requires Holds(w.disk, Some(Held(None, None, 3, 2)), 3, false)
    requires w.ops == map[1 := Renewing(Held(None, None, 3, 2), FIRST)] && w.issued == ORIGINS[..1]
    ensures Draft(M, w, RENEW) == Some(Held(None, Some(SECOND), 4, 3))
  {
    hide Disk.Recovery, Disk.Sound, Account.Valid;
    Loads(w.disk, Held(None, None, 3, 2), 3, false);
  }

  /** The world after a renewal whose answer hands the refresh token on. */
  lemma Renewed(w: World)
    requires Holds(w.disk, Some(Held(None, None, 3, 2)), 3, false)
    requires w.ops == map[1 := Renewing(Held(None, None, 3, 2), FIRST)] && w.issued == ORIGINS[..1]
    ensures var w' := Apply(M, w, RENEW);
            && Holds(w'.disk, Some(Held(None, Some(SECOND), 4, 3)), 4, false)
            && w'.ops == map[] && w'.issued == ORIGINS && w'.renewed == w.renewed
  {
    hide Holds, Account.Valid, Draft, Apply, Held;
    RenewDraft(w);
    HeldIsValid(None, Some(SECOND), 4, 3);
    OneStep(w, RENEW, Some(Held(None, None, 3, 2)), 3, false, Held(None, Some(SECOND), 4, 3));
  }

  lemma StepIsReachable(w: World, e: Event)
    requires AccountSafety.Reachable(M, w)
    ensures AccountSafety.Reachable(M, Apply(M, w, e))
  {
    var events :| w == Accounts.Run(M, Start, events);
    assert (events + [e])[..|events|] == events;
    assert Apply(M, w, e) == Accounts.Run(M, Start, events + [e]);
  }

  lemma StartIsReachable()
    ensures AccountSafety.Reachable(M, Start)
  {
    assert Start == Accounts.Run(M, Start, []);
  }

  /**
   A login, a refresh whose answer hands the refresh token on, and another
   refresh: the second one sends the token that the first one sent.
   */
  lemma TokenIsSentTwice()
    ensures exists w :: AccountSafety.Reachable(M, w) && w.issued == ORIGINS && w.renewed == [0, 1]
  {
    hide Holds, Apply, Held, Account.Valid, AccountSafety.Reachable;
    var w1 := Apply(M, Start, BEGIN);
    var w2 := Apply(M, w1, Finish(Faultless));
    var w3 := Apply(M, w2, StartRefresh(1, ALIAS, CALM));
    var w4 := Apply(M, w3, RENEW);
    var w5 := Apply(M, w4, StartRefresh(2, ALIAS, CALM));
    Beginning();
    Finishing(w1, Faultless);
    Refreshing(w2, 1, FIRST, 2, 1);
    Renewed(w3);
    Refreshing(w4, 2, SECOND, 4, 3);
    StartIsReachable();
    StepIsReachable(Start, BEGIN);
    StepIsReachable(w1, Finish(Faultless));
    StepIsReachable(w2, StartRefresh(1, ALIAS, CALM));
    StepIsReachable(w3, RENEW);
    StepIsReachable(w4, StartRefresh(2, ALIAS, CALM));
  }

  const AGAIN := BeginLogin(1, ALIAS, CLIENT, Ticket('1'), CALM)

  lemma AgainDraft(w: World)
    requires Holds(w.disk, Some(Stored()), 2, true)
    requires w.ops == map[0 := Leaving(ALIAS, Ticket('0'))] && w.attempts == {Ticket('0')}
    ensures Draft(M, w, AGAIN) == Some(Held(Some(Ticket('1')), None, 3, 1))
  {
    hide Disk.Recovery, Disk.Sound, Account.Valid;
    Loads(w.disk, Stored(), 2, true);
    assert Ticket('0')[0] != Ticket('1')[0];
  }

  /**
   A login whose last marker write fails leaves its credential quarantined, and
   the next login, which is published without a fault, drops that credential
   and keeps its generation.
   */
  lemma GenerationOutlivesItsCredential()
    ensures exists w ::
              && AccountSafety.Reachable(M, w)
              && w.disk.Recovery(HOME) && w.disk.Current(PROVIDER).oauth == map[ALIAS := Stored()]
              && var d := Apply(M, w, AGAIN).disk;
                 && !d.Recovery(HOME) && ALIAS in d.Current(PROVIDER).oauth
                 && var account := d.Current(PROVIDER).oauth[ALIAS];
                    account.credential.None? && account.generation == Stored().generation
  {
    hide Holds, Apply, Account.Valid, AccountSafety.Reachable, Disk.Recovery;
    var w1 := Apply(M, Start, BEGIN);
    var w2 := Apply(M, w1, Finish(UNSETTLED));
    Beginning();
    Finishing(w1, UNSETTLED);
    AgainDraft(w2);
    HeldIsValid(Some(Ticket('1')), None, 3, 1);
    OneStep(w2, AGAIN, Some(Stored()), 2, true, Held(Some(Ticket('1')), None, 3, 1));
    HoldsReads(w2.disk, Some(Stored()), 2, true);
    HoldsReads(Apply(M, w2, AGAIN).disk, Some(Held(Some(Ticket('1')), None, 3, 1)), 3, false);
    StartIsReachable();
    StepIsReachable(Start, BEGIN);
    StepIsReachable(w1, Finish(UNSETTLED));
  }

  lemma HoldsReads(d: Disk, account: Option<Account>, revision: nat, recovery: bool)
    requires Holds(d, account, revision, recovery) && account.Some?
    ensures d.Current(PROVIDER).oauth == map[ALIAS := account.value] && d.Recovery(HOME) == recovery
  {
  }
}
