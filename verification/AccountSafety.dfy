/**
 Safety of the authorization lifecycle over every run: interleavings, faults in
 any write, killed processes, power losses.
 */
module AccountSafety {
  import opened Prelude
  import opened Records
  import opened Store
  import opened Publication
  import opened StoreRuns
  import opened Accounts

  // ---- The invariant ----

  /** The credential is an issued one, as it was issued, and was never handed to `driver.renew`. */
  ghost predicate Unspent(w: World, alias: string, c: Credential) {
    && c.serial < |w.issued| && c.serial !in w.renewed
    && w.issued[c.serial].alias == alias && w.issued[c.serial].refresh == c.refresh
  }

  /**
   Stored credentials were issued to this alias, were confirmed for this
   principal unless pending, and were never spent.
   */
  ghost predicate AccountOk(m: Manager, w: World, alias: string, account: Account) {
    && account.Valid(m.profile, alias)
    && (account.credential.Some? ==>
          Unspent(w, alias, account.credential.value)
          && w.issued[account.credential.value.serial].verified == account.identity)
    && (account.pending.Some? ==> Unspent(w, alias, account.pending.value))
    && (account.attempt.Some? ==> account.attempt.value in w.attempts)
  }

  ghost predicate Distinct(accounts: map<string, Account>) {
    forall a, b :: a in accounts && b in accounts && a != b && accounts[a].identity.Some? ==>
      accounts[a].client != accounts[b].client || accounts[a].identity != accounts[b].identity
  }

  ghost predicate AccountsOk(m: Manager, w: World, accounts: map<string, Account>) {
    && (forall a :: a in accounts ==> AccountOk(m, w, a, accounts[a]))
    && Distinct(accounts)
  }

  ghost predicate VersionsOk(m: Manager, w: World) {
    forall v :: v in w.disk.DocumentFile(m.profile).Versions() ==> AccountsOk(m, w, v.oauth)
  }

  /** What the start of a refresh leaves of an account. */
  predicate Stripped(account: Account) {
    && account.state == NeedsReauthorization
    && account.pending.None? && account.attempt.None? && account.identity.Some?
  }

  /** The account of an operation that holds the lock is the visible one, and is not in recovery. */
  ghost predicate HeldOn(m: Manager, d: Disk, op: Op) {
    && op.Holds()
    && op.account.alias in d.Current(m.profile).oauth
    && d.Current(m.profile).oauth[op.account.alias] == op.account
    && !d.Recovery(m.SlotOf(op.account.alias))
    && (op.Verifying? ==> op.account.pending.Some?)
    && (op.Renewing? ==> Stripped(op.account))
  }

  ghost predicate HeldOk(m: Manager, w: World, op: Op) { HeldOn(m, w.disk, op) }

  /** A credential that was handed to `driver.renew` for its refresh token. */
  ghost predicate Spent(w: World, c: Credential) {
    c.serial in w.renewed && c.serial < |w.issued| && c.refresh.Some? && w.issued[c.serial].refresh == c.refresh
  }

  ghost predicate OpOk(m: Manager, w: World, op: Op) {
    match op
    case Login(_, _, _, attempt) => attempt in w.attempts
    case Leaving(_, attempt) => attempt in w.attempts
    case Renewing(_, previous) => HeldOk(m, w, op) && Spent(w, previous)
    case Verifying(_) => HeldOk(m, w, op)
  }

  /** Two operations never hold one account lock, and never share a ticket. */
  ghost predicate Apart(ops: map<nat, Op>) {
    && (forall i, j :: i in ops && j in ops && i != j && ops[i].Holds() && ops[j].Holds() ==>
          ops[i].Alias() != ops[j].Alias())
    && (forall i, j :: i in ops && j in ops && i != j && !ops[i].Holds() && !ops[j].Holds() ==>
          ops[i].attempt != ops[j].attempt)
  }

  ghost predicate OpsOk(m: Manager, w: World) {
    && (forall id :: id in w.ops ==> OpOk(m, w, w.ops[id]))
    && Apart(w.ops)
  }

  /** A credential brought a refresh token of its own, or kept that of a credential spent before it. */
  ghost predicate TokenOk(issued: seq<Origin>, renewed: seq<nat>, serial: nat)
    requires serial < |issued|
  {
    var origin := issued[serial];
    if origin.kept.None? then origin.refresh in {None, Some(serial)}
    else origin.kept.value < serial && origin.kept.value in renewed && origin.refresh.Some?
         && origin.refresh == issued[origin.kept.value].refresh
  }

  ghost predicate SpentOk(w: World) {
    && (forall i :: 0 <= i < |w.renewed| ==> w.renewed[i] < |w.issued| && w.issued[w.renewed[i]].refresh.Some?)
    && (forall i, j :: 0 <= i < j < |w.renewed| ==> w.renewed[i] != w.renewed[j])
    && (forall serial: nat :: serial < |w.issued| ==> TokenOk(w.issued, w.renewed, serial))
    && (forall j :: 0 <= j < |w.renewed| && w.issued[w.renewed[j]].kept.Some? ==>
          w.issued[w.renewed[j]].kept.value in w.renewed[..j])
  }

  ghost predicate Inv(m: Manager, w: World) {
    w.disk.Sound() && VersionsOk(m, w) && OpsOk(m, w) && SpentOk(w)
  }

  // ---- Reading a sound disk ----

  lemma VisibleOk(m: Manager, w: World)
    requires VersionsOk(m, w)
    ensures AccountsOk(m, w, w.disk.Current(m.profile).oauth)
  {
    assert w.disk.Current(m.profile) in w.disk.DocumentFile(m.profile).Versions();
  }

  /** A record that is not in recovery is the same in every version that may survive. */
  lemma Settled(m: Manager, w: World, alias: string, v: Document)
    requires w.disk.Sound() && !w.disk.Recovery(m.SlotOf(alias))
    requires v in w.disk.DocumentFile(m.profile).Versions()
    ensures v.Get(OAuth, alias) == w.disk.Current(m.profile).Get(OAuth, alias)
  {
    var slot := m.SlotOf(alias);
    assert w.disk.SoundSlot(slot);
    assert w.disk.MarkerFile(slot).visible in w.disk.MarkerFile(slot).Versions();
  }

  // ---- What every draft keeps ----

  /** The step works on this alias. */
  ghost predicate About(w: World, e: Event, alias: string) {
    match e
    case BeginLogin(_, a, _, _, _) => a == alias
    case StartRefresh(_, a, _) => a == alias
    case Logout(a, _) => a == alias
    case RetainClient(id, _, _) => id in w.ops && w.ops[id].Alias() == alias
    case FinishLogin(id, _, _, _) => id in w.ops && w.ops[id].Alias() == alias
    case DropLogin(id, _) => id in w.ops && w.ops[id].Alias() == alias
    case RenewVerified(id, _, _, _) => id in w.ops && w.ops[id].Alias() == alias
    case RenewPending(id, _, _) => id in w.ops && w.ops[id].Alias() == alias
    case Verified(id, _, _) => id in w.ops && w.ops[id].Alias() == alias
    case _ => false
  }

  /** How a published account relates to the visible one. */
  ghost predicate Evolves(m: Manager, d: Disk, alias: string, draft: Account) {
    var accounts := d.Current(m.profile).oauth;
    && draft.alias == alias
    && (alias in accounts ==>
          var was := accounts[alias];
          && (was.identity.Some? ==> draft.identity == was.identity && draft.client == was.client)
          && draft.revision == was.revision + 1
          && draft.generation >= was.generation)
    && (draft.identity.Some? ==>
          (alias in accounts && accounts[alias].identity == draft.identity && accounts[alias].client == draft.client)
          || Unclaimed(m, d, alias, draft.client, draft.identity.value))
  }

  /** The step is one of a login. */
  predicate OfLogin(e: Event) { e.BeginLogin? || e.RetainClient? || e.FinishLogin? || e.DropLogin? }

  lemma LoginEvolves(m: Manager, w: World, e: Event)
    requires Inv(m, w) && OfLogin(e) && Draft(m, w, e).Some?
    ensures About(w, e, Draft(m, w, e).value.alias)
    ensures Evolves(m, w.disk, Draft(m, w, e).value.alias, Draft(m, w, e).value)
  {
    VisibleOk(m, w);
    var accounts := w.disk.Current(m.profile).oauth;
    if !e.BeginLogin? {
      assert AccountOk(m, w, w.ops[e.id].Alias(), accounts[w.ops[e.id].Alias()]);
    } else if e.alias in accounts {
      assert AccountOk(m, w, e.alias, accounts[e.alias]);
    }
  }

  lemma DraftEvolves(m: Manager, w: World, e: Event)
    requires Inv(m, w) && Draft(m, w, e).Some?
    ensures About(w, e, Draft(m, w, e).value.alias)
    ensures Evolves(m, w.disk, Draft(m, w, e).value.alias, Draft(m, w, e).value)
  {
    VisibleOk(m, w);
    if OfLogin(e) {
      LoginEvolves(m, w, e);
    } else if e.StartRefresh? || e.Logout? {
      assert AccountOk(m, w, e.alias, w.disk.Current(m.profile).oauth[e.alias]);
    } else {
      assert OpOk(m, w, w.ops[e.id]);
    }
  }

  /** The world with this step's histories and the old disk. */
  function Noted(m: Manager, w: World, e: Event): World
    requires Draft(m, w, e).Some?
  {
    w.(issued := Issue(w, e, Draft(m, w, e).value),
       attempts := if e.BeginLogin? then w.attempts + {e.attempt} else w.attempts)
  }

  /** A login stores the credential that it was just issued, confirmed for the account's principal. */
  lemma FinishMaterial(m: Manager, w: World, e: Event)
    requires Inv(m, w) && e.FinishLogin? && Draft(m, w, e).Some?
    requires Draft(m, w, e).value.Valid(m.profile, Draft(m, w, e).value.alias)
    ensures AccountOk(m, Noted(m, w, e), Draft(m, w, e).value.alias, Draft(m, w, e).value)
  {
    hide Disk.Sound, OpsOk, Available, Accepted, ValidGrant;
    VisibleOk(m, w);
    assert AccountOk(m, w, w.ops[e.id].Alias(), w.disk.Current(m.profile).oauth[w.ops[e.id].Alias()]);
  }

  lemma LoginMaterial(m: Manager, w: World, e: Event)
    requires Inv(m, w) && OfLogin(e) && Draft(m, w, e).Some?
    requires Draft(m, w, e).value.Valid(m.profile, Draft(m, w, e).value.alias)
    ensures AccountOk(m, Noted(m, w, e), Draft(m, w, e).value.alias, Draft(m, w, e).value)
  {
    hide Disk.Sound, SpentOk, DraftFinish, Accepted;
    VisibleOk(m, w);
    var accounts := w.disk.Current(m.profile).oauth;
    if e.FinishLogin? {
      FinishMaterial(m, w, e);
    } else if !e.BeginLogin? {
      assert AccountOk(m, w, w.ops[e.id].Alias(), accounts[w.ops[e.id].Alias()]);
    } else if e.alias in accounts {
      assert AccountOk(m, w, e.alias, accounts[e.alias]);
    }
  }

  /** The start of a refresh and a logout leave no credential, but perhaps a pending one. */
  lemma StrippedMaterial(m: Manager, w: World, e: Event)
    requires Inv(m, w) && (e.StartRefresh? || e.Logout?) && Draft(m, w, e).Some?
    requires Draft(m, w, e).value.Valid(m.profile, Draft(m, w, e).value.alias)
    ensures AccountOk(m, Noted(m, w, e), Draft(m, w, e).value.alias, Draft(m, w, e).value)
  {
    VisibleOk(m, w);
    assert AccountOk(m, w, e.alias, w.disk.Current(m.profile).oauth[e.alias]);
  }

  /** The credential that is issued next was not spent. */
  lemma NextIsUnspent(m: Manager, w: World)
    requires Inv(m, w)
    ensures |w.issued| !in w.renewed
  {
  }

  lemma AnswerMaterial(m: Manager, w: World, e: Event)
    requires Inv(m, w) && (e.RenewVerified? || e.RenewPending?) && Draft(m, w, e).Some?
    requires Draft(m, w, e).value.Valid(m.profile, Draft(m, w, e).value.alias)
    ensures AccountOk(m, Noted(m, w, e), Draft(m, w, e).value.alias, Draft(m, w, e).value)
  {
    hide Disk.Sound, SpentOk, Accepted, ValidGrant, Account.Valid;
    NextIsUnspent(m, w);
    VisibleOk(m, w);
    assert OpOk(m, w, w.ops[e.id]);
    assert AccountOk(m, w, w.ops[e.id].account.alias, w.ops[e.id].account);
  }

  lemma VerifiedMaterial(m: Manager, w: World, e: Event)
    requires Inv(m, w) && e.Verified? && Draft(m, w, e).Some?
    requires Draft(m, w, e).value.Valid(m.profile, Draft(m, w, e).value.alias)
    ensures AccountOk(m, Noted(m, w, e), Draft(m, w, e).value.alias, Draft(m, w, e).value)
  {
    hide Disk.Sound, SpentOk, Accepted;
    VisibleOk(m, w);
    assert OpOk(m, w, w.ops[e.id]);
    assert AccountOk(m, w, w.ops[e.id].account.alias, w.ops[e.id].account);
  }

  /** A published account carries credentials of its own alias, confirmed for its principal, that were never spent. */
  lemma DraftMaterial(m: Manager, w: World, e: Event)
    requires Inv(m, w) && Draft(m, w, e).Some?
    requires Draft(m, w, e).value.Valid(m.profile, Draft(m, w, e).value.alias)
    ensures AccountOk(m, Noted(m, w, e), Draft(m, w, e).value.alias, Draft(m, w, e).value)
  {
    hide AccountOk, Noted, Inv, Account.Valid, DraftBegin, DraftRetain, DraftFinish, DraftDrop, DraftRefresh,
         DraftRenewed, DraftVerified, DraftLogout;
    if OfLogin(e) {
      LoginMaterial(m, w, e);
    } else if e.StartRefresh? || e.Logout? {
      StrippedMaterial(m, w, e);
    } else if e.Verified? {
      VerifiedMaterial(m, w, e);
    } else {
      AnswerMaterial(m, w, e);
    }
  }

  /** Issued credentials stay issued, with their alias and their token. */
  lemma IssueGrows(w: World, e: Event, draft: Account)
    ensures var issued := Issue(w, e, draft);
            && |w.issued| <= |issued|
            && forall s: nat :: s < |w.issued| ==>
                 issued[s].alias == w.issued[s].alias && issued[s].refresh == w.issued[s].refresh
                 && issued[s].kept == w.issued[s].kept
  {
  }

  /** What was confirmed for a stored credential stays: a step confirms only a pending one, and then it is alone. */
  lemma NotedKeepsVerified(m: Manager, w: World, e: Event, v: Document, a: string)
    requires Inv(m, w) && Draft(m, w, e).Some? && v in w.disk.DocumentFile(m.profile).Versions() && a in v.oauth
    requires v.oauth[a].credential.Some?
    ensures var serial := v.oauth[a].credential.value.serial;
            serial < |w.issued| && Noted(m, w, e).issued[serial].verified == w.issued[serial].verified
  {
    hide DraftBegin, DraftRetain, DraftFinish, DraftDrop, DraftRefresh, DraftRenewed, DraftLogout, Disk.Sound, SpentOk,
         OriginOf;
    IssueGrows(w, e, Draft(m, w, e).value);
    assert AccountsOk(m, w, v.oauth);
    assert AccountOk(m, w, a, v.oauth[a]);
    if e.Verified? {
      assert OpOk(m, w, w.ops[e.id]);
      var account := w.ops[e.id].account;
      VisibleOk(m, w);
      assert AccountOk(m, w, account.alias, account);
      Settled(m, w, account.alias, v);
    }
  }

  lemma NotedKeepsAccount(m: Manager, w: World, e: Event, v: Document, a: string)
    requires Inv(m, w) && Draft(m, w, e).Some? && v in w.disk.DocumentFile(m.profile).Versions() && a in v.oauth
    ensures AccountOk(m, Noted(m, w, e), a, v.oauth[a])
  {
    hide Draft, Disk.Sound, SpentOk, OpsOk, Issue, Account.Valid;
    assert AccountsOk(m, w, v.oauth);
    assert AccountOk(m, w, a, v.oauth[a]);
    IssueGrows(w, e, Draft(m, w, e).value);
    if v.oauth[a].credential.Some? {
      NotedKeepsVerified(m, w, e, v, a);
    }
  }

  /** A credential that a step takes up has a token of its own, or keeps that of the credential just spent. */
  lemma NewTokenOk(m: Manager, w: World, e: Event)
    requires Inv(m, w) && Draft(m, w, e).Some?
    requires |Noted(m, w, e).issued| > |w.issued|
    ensures |Noted(m, w, e).issued| == |w.issued| + 1 && TokenOk(Noted(m, w, e).issued, w.renewed, |w.issued|)
  {
    hide Disk.Sound, VersionsOk, HeldOn, DraftFinish, DraftRenewed, Load;
    if e.RenewVerified? || e.RenewPending? {
      assert OpOk(m, w, w.ops[e.id]);
    }
  }

  lemma NotedKeepsSpent(m: Manager, w: World, e: Event)
    requires Inv(m, w) && Draft(m, w, e).Some?
    ensures SpentOk(Noted(m, w, e))
  {
    hide Draft, AccountOk, Disk.Sound, Issue, VersionsOk, OpsOk;
    var noted := Noted(m, w, e);
    IssueGrows(w, e, Draft(m, w, e).value);
    forall s: nat | s < |noted.issued| ensures TokenOk(noted.issued, w.renewed, s) {
      if s < |w.issued| {
        assert TokenOk(w.issued, w.renewed, s);
      } else {
        NewTokenOk(m, w, e);
      }
    }
  }

  /** What this step learns of credentials keeps every version that is already stored in order. */
  lemma NotedKeepsVersions(m: Manager, w: World, e: Event)
    requires Inv(m, w) && Draft(m, w, e).Some?
    ensures VersionsOk(m, Noted(m, w, e)) && SpentOk(Noted(m, w, e))
  {
    hide Draft, AccountOk, Disk.Sound, Issue, SpentOk;
    NotedKeepsSpent(m, w, e);
    forall v | v in w.disk.DocumentFile(m.profile).Versions() ensures AccountsOk(m, Noted(m, w, e), v.oauth) {
      assert AccountsOk(m, w, v.oauth);
      forall a | a in v.oauth ensures AccountOk(m, Noted(m, w, e), a, v.oauth[a]) {
        NotedKeepsAccount(m, w, e, v, a);
      }
    }
  }

  /** The accounts of the document that this step tries to install. */
  function NextAccounts(m: Manager, w: World, draft: Account): map<string, Account> {
    w.disk.Current(m.profile).oauth[draft.alias := draft]
  }

  lemma NextAccountsOk(m: Manager, w: World, e: Event)
    requires Inv(m, w) && Draft(m, w, e).Some?
    requires Draft(m, w, e).value.Valid(m.profile, Draft(m, w, e).value.alias)
    ensures AccountsOk(m, Noted(m, w, e), NextAccounts(m, w, Draft(m, w, e).value))
  {
    var draft := Draft(m, w, e).value;
    var accounts := w.disk.Current(m.profile).oauth;
    NotedKeepsVersions(m, w, e);
    VisibleOk(m, Noted(m, w, e));
    DraftEvolves(m, w, e);
    DraftMaterial(m, w, e);
    assert Distinct(accounts);
  }

  // ---- One publishing step ----

  /** What a publication of `draft` leaves on disk, in the terms of this profile's accounts. */
  lemma PublishedAccounts(m: Manager, w: World, draft: Account, io: Io)
    requires w.disk.Sound()
    ensures var r := w.disk.Publish(m.codec, m.profile, draft.alias, AccountRecord(draft), io);
            var before, after := w.disk.DocumentFile(m.profile), r.disk.DocumentFile(m.profile);
            && r.disk.Sound()
            && (forall v :: v in after.Versions() ==> v in before.Versions() || v.oauth == NextAccounts(m, w, draft))
            && (after.Versions() == before.Versions() || draft.Valid(m.profile, draft.alias))
            && (r.outcome == Done ==>
                  after.Durable() && after.visible.oauth == NextAccounts(m, w, draft)
                    && !r.disk.Recovery(m.SlotOf(draft.alias)))
            && (after.visible.oauth == w.disk.Current(m.profile).oauth
                  || after.visible.oauth == NextAccounts(m, w, draft))
            && (!r.disk.Recovery(m.SlotOf(draft.alias)) ==>
                  after.visible.oauth == NextAccounts(m, w, draft)
                  || (after.visible.oauth == w.disk.Current(m.profile).oauth
                    && !w.disk.Recovery(m.SlotOf(draft.alias))))
            && (forall a :: a != draft.alias ==> r.disk.Recovery(m.SlotOf(a)) == w.disk.Recovery(m.SlotOf(a)))
  {
    hide Disk.Publish, Disk.Sound, Disk.Armed;
    var record := AccountRecord(draft);
    var r := w.disk.Publish(m.codec, m.profile, draft.alias, record, io);
    CurrentProvider(w.disk, m.profile);
    PublishKeepsSound(w.disk, m.codec, m.profile, draft.alias, record, io);
    PublishShape(w.disk, m.codec, m.profile, draft.alias, record, io);
    PublishHonest(w.disk, m.codec, m.profile, draft.alias, record, io);
    PublishReads(w.disk, m.codec, m.profile, draft.alias, record, io);
    var next := Successor(w.disk, m.profile, draft.alias, record);
    assert next.oauth == NextAccounts(m, w, draft);
    assert r.disk.Current(m.profile) == w.disk.Current(m.profile) || r.disk.Current(m.profile) == next;
    if r.disk.DocumentFile(m.profile).Versions() != w.disk.DocumentFile(m.profile).Versions() {
      assert !SameDocuments(w.disk, r.disk);
      assert next.Valid(m.profile);
      assert next.oauth[draft.alias] == draft;
    }
    assert forall a :: w.disk.Current(m.profile).Get(OAuth, a)
                       == if a in w.disk.Current(m.profile).oauth
                         then Some(AccountRecord(w.disk.Current(m.profile).oauth[a]))
                          else None;
  }

  /** Versions stay in order when the new ones hold accounts that are, and the histories do not change. */
  lemma VersionsFollow(m: Manager, w: World, w': World, next: map<string, Account>)
    requires VersionsOk(m, w)
    requires w'.issued == w.issued && w'.attempts == w.attempts && w'.renewed == w.renewed
    requires forall v :: v in w'.disk.DocumentFile(m.profile).Versions() ==>
               v in w.disk.DocumentFile(m.profile).Versions() || (v.oauth == next && AccountsOk(m, w, next))
    ensures VersionsOk(m, w')
  {
    forall v | v in w'.disk.DocumentFile(m.profile).Versions() ensures AccountsOk(m, w', v.oauth) {
      assert AccountsOk(m, w, v.oauth);
      assert forall a :: a in v.oauth && AccountOk(m, w, a, v.oauth[a]) ==> AccountOk(m, w', a, v.oauth[a]);
    }
  }

  /** Spending a credential is in order once every surviving version holds the account without it. */
  lemma VersionsAfterSpending(m: Manager, w: World, w': World, next: map<string, Account>, alias: string, serial: nat)
    requires AccountsOk(m, w, next)
    requires w'.issued == w.issued && w'.attempts == w.attempts && w'.renewed == w.renewed + [serial]
    requires forall v :: v in w'.disk.DocumentFile(m.profile).Versions() ==> v.oauth == next
    requires serial < |w.issued| && w.issued[serial].alias == alias
    requires alias in next ==> next[alias].credential.None? && next[alias].pending.None?
    ensures VersionsOk(m, w')
  {
    forall a | a in next ensures AccountOk(m, w', a, next[a]) {
      assert AccountOk(m, w, a, next[a]);
    }
  }

  /** A refresh takes out the visible credential of its account, which has a refresh token. */
  lemma RefreshTakes(m: Manager, w: World, e: Event)
    requires Inv(m, w) && e.StartRefresh? && Draft(m, w, e).Some?
    ensures var taken := Taken(m, w, e, Draft(m, w, e).value);
            && Draft(m, w, e).value.alias == e.alias
            && taken.Some? && taken.value.refresh.Some? && Unspent(w, e.alias, taken.value)
  {
    VisibleOk(m, w);
    assert AccountOk(m, w, e.alias, w.disk.Current(m.profile).oauth[e.alias]);
  }

  lemma StepKeepsVersions(m: Manager, w: World, e: Event)
    requires Inv(m, w) && Draft(m, w, e).Some?
    ensures VersionsOk(m, Apply(m, w, e)) && Apply(m, w, e).disk.Sound()
  {
    hide Draft, Disk.Publish, NextOps, Idle, Issue, AccountsOk, SpentOk, OpsOk, Account.Valid;
    var draft := Draft(m, w, e).value;
    var noted, w' := Noted(m, w, e), Apply(m, w, e);
    var next := NextAccounts(m, w, draft);
    PublishedAccounts(m, w, draft, EnvOf(e).io);
    NotedKeepsVersions(m, w, e);
    if draft.Valid(m.profile, draft.alias) {
      NextAccountsOk(m, w, e);
    }
    if w'.renewed == w.renewed {
      VersionsFollow(m, noted, w', next);
    } else {
      RefreshDrops(m, w, e);
      RefreshTakes(m, w, e);
      assert w'.disk.DocumentFile(m.profile).visible in w'.disk.DocumentFile(m.profile).Versions();
      VersionsAfterSpending(m, noted, w', next, draft.alias, Taken(m, w, e, draft).value.serial);
    }
  }

  lemma RefreshDrops(m: Manager, w: World, e: Event)
    requires e.StartRefresh? && Draft(m, w, e).Some?
    ensures Draft(m, w, e).value.credential.None? && Draft(m, w, e).value.pending.None?
    ensures Draft(m, w, e).value.attempt.None? && Draft(m, w, e).value.state == NeedsReauthorization
    ensures Noted(m, w, e) == w
  {
  }

  /** A renewal starts only with a credential that was never spent before. */
  lemma StepKeepsSpent(m: Manager, w: World, e: Event)
    requires Inv(m, w) && Draft(m, w, e).Some?
    ensures SpentOk(Apply(m, w, e))
  {
    hide Draft, Disk.Publish, NextOps, Idle;
    var w' := Apply(m, w, e);
    NotedKeepsSpent(m, w, e);
    if w'.renewed != w.renewed {
      RefreshTakes(m, w, e);
      forall s: nat | s < |w'.issued| ensures TokenOk(w'.issued, w'.renewed, s) {
        assert TokenOk(w'.issued, w.renewed, s);
      }
      var n := |w.renewed|;
      assert w'.renewed[..n] == w.renewed && TokenOk(w'.issued, w.renewed, w'.renewed[n]);
      forall j | 0 <= j < n && w'.issued[w'.renewed[j]].kept.Some?
        ensures w'.issued[w'.renewed[j]].kept.value in w'.renewed[..j]
      {
        assert w'.renewed[..j] == w.renewed[..j];
      }
    }
  }

  /** The disk that a publishing step leaves. */
  function Published(m: Manager, w: World, draft: Account, io: Io): Result {
    w.disk.Publish(m.codec, m.profile, draft.alias, AccountRecord(draft), io)
  }

  /** The lock holder's account, when another alias is published. */
  lemma OtherHolders(m: Manager, w: World, draft: Account, io: Io, op: Op)
    requires w.disk.Sound() && op.Holds() && HeldOn(m, w.disk, op) && op.Alias() != draft.alias
    ensures HeldOn(m, Published(m, w, draft, io).disk, op)
  {
    PublishedAccounts(m, w, draft, io);
  }

  /** An operation that goes on holding the lock after its own account was published. */
  lemma OwnHolder(m: Manager, w: World, op: Op, io: Io)
    requires w.disk.Sound() && op.Holds() && Published(m, w, op.account, io).outcome == Done
    requires op.Verifying? ==> op.account.pending.Some?
    requires op.Renewing? ==> Stripped(op.account)
    ensures HeldOn(m, Published(m, w, op.account, io).disk, op)
  {
    PublishedAccounts(m, w, op.account, io);
  }

  /** The account of a refresh that has just started. */
  lemma RefreshAccount(m: Manager, w: World, e: Event)
    requires Inv(m, w) && e.StartRefresh? && Draft(m, w, e).Some?
    ensures Stripped(Draft(m, w, e).value)
  {
    VisibleOk(m, w);
    assert AccountOk(m, w, e.alias, w.disk.Current(m.profile).oauth[e.alias]);
  }

  /** How one entry of the operation table may change. */
  lemma NextOp(w: World, e: Event, draft: Account, done: bool, taken: Option<Credential>, id: nat)
    requires Entitled(w, e, draft) && id in NextOps(w, e, draft, done, taken)
    ensures var op := NextOps(w, e, draft, done, taken)[id];
            || (id in w.ops && op == w.ops[id])
            || (e.BeginLogin? && op.Login? && op.attempt == e.attempt)
            || (e.FinishLogin? && op.Leaving? && id in w.ops && w.ops[id].Login? && op.attempt == w.ops[id].attempt)
            || (e.StartRefresh? && done && taken.Some? && op == Renewing(draft, taken.value))
            || (e.RenewPending? && done && op == Verifying(draft))
  {
  }

  lemma PendingDraft(m: Manager, w: World, e: Event)
    requires e.RenewPending? && Draft(m, w, e).Some?
    ensures Draft(m, w, e).value.pending.Some?
  {
  }

  /** What a renewal has handed over stays spent, and what it takes out of the store is spent now. */
  lemma SpentStaysSpent(m: Manager, w: World, e: Event, op: Op)
    requires Inv(m, w) && Draft(m, w, e).Some? && op.Renewing?
    requires Spent(w, op.previous)
             || (Taken(m, w, e, Draft(m, w, e).value) == Some(op.previous)
                 && Published(m, w, Draft(m, w, e).value, EnvOf(e).io).outcome == Done)
    ensures Spent(Apply(m, w, e), op.previous)
  {
    hide Disk.Publish, NextOps, Idle, HeldOn, SpentOk, Issue, Disk.Sound;
    IssueGrows(w, e, Draft(m, w, e).value);
    if !Spent(w, op.previous) {
      RefreshTakes(m, w, e);
    }
  }

  lemma StepKeepsOp(m: Manager, w: World, e: Event, id: nat)
    requires Inv(m, w) && Draft(m, w, e).Some? && id in Apply(m, w, e).ops
    ensures OpOk(m, Apply(m, w, e), Apply(m, w, e).ops[id])
  {
    hide Draft, Disk.Publish, NextOps, Entitled, Idle, HeldOn, VersionsOk, SpentOk;
    var draft := Draft(m, w, e).value;
    var r := Published(m, w, draft, EnvOf(e).io);
    var taken := Taken(m, w, e, draft);
    DraftEntitled(m, w, e);
    NextOp(w, e, draft, r.outcome == Done, taken, id);
    if id in w.ops {
      assert OpOk(m, w, w.ops[id]);
    }
    var op := NextOps(w, e, draft, r.outcome == Done, taken)[id];
    if op.Renewing? {
      SpentStaysSpent(m, w, e, op);
    }
    if op.Holds() {
      if id in w.ops && op == w.ops[id] {
        OthersDoNotHold(m, w, e, id);
        OtherHolders(m, w, draft, EnvOf(e).io, op);
      } else {
        if e.StartRefresh? {
          RefreshAccount(m, w, e);
        } else {
          PendingDraft(m, w, e);
        }
        OwnHolder(m, w, op, EnvOf(e).io);
      }
      assert HeldOn(m, r.disk, op);
    }
  }

  /** A step that publishes works on an alias that no other operation has locked. */
  lemma OthersDoNotHold(m: Manager, w: World, e: Event, id: nat)
    requires Inv(m, w) && Draft(m, w, e).Some? && id in w.ops && w.ops[id].Holds()
    requires id in Apply(m, w, e).ops && Apply(m, w, e).ops[id] == w.ops[id]
    ensures w.ops[id].Alias() != Draft(m, w, e).value.alias
  {
    hide Evolves, Inv, Disk.Publish, DraftBegin, DraftRetain, DraftFinish, DraftDrop, DraftRefresh, DraftRenewed,
         DraftVerified, DraftLogout;
    DraftEvolves(m, w, e);
    HoldersApart(m, w, e);
  }

  lemma HoldersApart(m: Manager, w: World, e: Event)
    requires Inv(m, w)
    ensures Apart(w.ops)
  {
  }

  lemma StepKeepsOps(m: Manager, w: World, e: Event)
    requires Inv(m, w) && Draft(m, w, e).Some?
    ensures OpsOk(m, Apply(m, w, e))
  {
    var w' := Apply(m, w, e);
    forall id | id in w'.ops ensures OpOk(m, w', w'.ops[id]) {
      StepKeepsOp(m, w, e, id);
    }
    StepKeepsOpsApart(m, w, e);
  }

  /** When an operation may be entered in the table, or change its entry. */
  ghost predicate Entitled(w: World, e: Event, draft: Account) {
    match e
    case BeginLogin(id, _, _, attempt, _) => id !in w.ops && attempt !in w.attempts
    case FinishLogin(id, _, _, _) => id in w.ops && w.ops[id].Login?
    case StartRefresh(id, alias, _) => id !in w.ops && !Locked(w, alias) && draft.alias == alias
    case RenewPending(id, _, _) => id in w.ops && w.ops[id].Renewing? && draft.alias == w.ops[id].Alias()
    case _ => true
  }

  lemma DraftEntitled(m: Manager, w: World, e: Event)
    requires Inv(m, w) && Draft(m, w, e).Some?
    ensures Entitled(w, e, Draft(m, w, e).value)
  {
    DraftEvolves(m, w, e);
  }

  lemma EntitledStaysApart(w: World, e: Event, draft: Account, done: bool, taken: Option<Credential>)
    requires Apart(w.ops) && Entitled(w, e, draft)
    requires forall i :: i in w.ops && !w.ops[i].Holds() ==> w.ops[i].attempt in w.attempts
    ensures Apart(NextOps(w, e, draft, done, taken))
  {
  }

  lemma StepKeepsOpsApart(m: Manager, w: World, e: Event)
    requires Inv(m, w) && Draft(m, w, e).Some?
    ensures Apart(Apply(m, w, e).ops)
  {
    var draft := Draft(m, w, e).value;
    DraftEntitled(m, w, e);
    assert forall i :: i in w.ops && !w.ops[i].Holds() ==> OpOk(m, w, w.ops[i]);
    EntitledStaysApart(w, e, draft, Published(m, w, draft, EnvOf(e).io).outcome == Done, Taken(m, w, e, draft));
  }

  // ---- The other steps ----

  /** The profile's accounts read the same, and no version holds accounts that no version held before. */
  ghost predicate SameAccounts(m: Manager, d: Disk, d': Disk) {
    && d'.Current(m.profile).oauth == d.Current(m.profile).oauth
    && (forall v :: v in d'.DocumentFile(m.profile).Versions() ==>
          exists u :: u in d.DocumentFile(m.profile).Versions() && u.oauth == v.oauth)
  }

  lemma ReplacesSameAccounts(m: Manager, d: Disk, d': Disk, next: Document)
    requires Replaces(d, d', next)
    requires next.provider == m.profile ==> next.oauth == d.Current(m.profile).oauth
    ensures SameAccounts(m, d, d')
  {
    assert d.Current(m.profile) in d.DocumentFile(m.profile).Versions();
  }

  lemma OutsidePublish(m: Manager, d: Disk, provider: string, alias: string, record: Record, io: Io)
    requires d.Sound() && (provider != m.profile || record.KeyRecord?)
    ensures var d' := d.Publish(m.codec, provider, alias, record, io).disk;
            SameAccounts(m, d, d') && forall a :: d'.MarkerFile(m.SlotOf(a)) == d.MarkerFile(m.SlotOf(a))
  {
    CurrentProvider(d, provider);
    PublishShape(d, m.codec, provider, alias, record, io);
    ReplacesSameAccounts(
      m, d, d.Publish(m.codec, provider, alias, record, io).disk, Successor(d, provider, alias, record));
  }

  lemma RestatesSameAccounts(m: Manager, d: Disk, d': Disk, provider: string)
    requires Restates(d, d', provider)
    ensures SameAccounts(m, d, d') && forall a :: d'.MarkerFile(m.SlotOf(a)) == d.MarkerFile(m.SlotOf(a))
  {
    var next: Document :| Replaces(d, d', next) && next.provider == provider
      && next.oauth == d.Current(provider).oauth && next.keys == d.Current(provider).keys;
    ReplacesSameAccounts(m, d, d', next);
  }

  lemma OutsideKeeps(m: Manager, d: Disk, action: Action)
    requires d.Sound() && Outside(m, action)
    ensures Act(d, m.codec, action).Sound() && SameAccounts(m, d, Act(d, m.codec, action))
    ensures forall a :: Act(d, m.codec, action).MarkerFile(m.SlotOf(a)) == d.MarkerFile(m.SlotOf(a))
  {
    ActKeepsSound(d, m.codec, action);
    match action {
      case Publish(provider, alias, record, io) => OutsidePublish(m, d, provider, alias, record, io);
      case ClearUnpublished(slot, io) => ClearKeepsSound(d, slot, io);
      case PowerLoss(_) =>
      case _ =>
        SharedWriters(d, m.codec, action);
        RestatesSameAccounts(m, d, Act(d, m.codec, action), action.provider);
    }
  }

  lemma SameAccountsKeepInv(m: Manager, w: World, w': World)
    requires Inv(m, w) && w'.disk.Sound() && SameAccounts(m, w.disk, w'.disk)
    requires forall a :: w'.disk.Recovery(m.SlotOf(a)) == w.disk.Recovery(m.SlotOf(a)) || !Locked(w, a)
    requires w' == w.(disk := w'.disk)
    ensures Inv(m, w')
  {
    forall v | v in w'.disk.DocumentFile(m.profile).Versions() ensures AccountsOk(m, w', v.oauth) {
      var u :| u in w.disk.DocumentFile(m.profile).Versions() && u.oauth == v.oauth;
      assert AccountsOk(m, w, u.oauth);
      assert forall a :: a in u.oauth && AccountOk(m, w, a, u.oauth[a]) ==> AccountOk(m, w', a, u.oauth[a]);
    }
    forall id | id in w'.ops ensures OpOk(m, w', w'.ops[id]) {
      assert OpOk(m, w, w.ops[id]);
    }
  }

  lemma PowerLossKeepsInv(m: Manager, w: World, pick: Pick)
    requires Inv(m, w)
    ensures Inv(m, w.(disk := w.disk.PowerLoss(pick), ops := map[]))
  {
    var w' := w.(disk := w.disk.PowerLoss(pick), ops := map[]);
    PowerLossIsHarmless(w.disk, pick);
    forall v | v in w'.disk.DocumentFile(m.profile).Versions() ensures AccountsOk(m, w', v.oauth) {
      assert v in w.disk.DocumentFile(m.profile).Versions();
      assert AccountsOk(m, w, v.oauth);
      assert forall a :: a in v.oauth && AccountOk(m, w, a, v.oauth[a]) ==> AccountOk(m, w', a, v.oauth[a]);
    }
  }

  /** Changing the table of operations only. */
  lemma OpsChangeKeepsInv(m: Manager, w: World, ops: map<nat, Op>)
    requires Inv(m, w) && Apart(ops)
    requires forall id :: id in ops ==> OpOk(m, w, ops[id])
    ensures Inv(m, w.(ops := ops))
  {
    var w' := w.(ops := ops);
    forall v | v in w.disk.DocumentFile(m.profile).Versions() ensures AccountsOk(m, w', v.oauth) {
      assert AccountsOk(m, w, v.oauth);
      assert forall a :: a in v.oauth && AccountOk(m, w, a, v.oauth[a]) ==> AccountOk(m, w', a, v.oauth[a]);
    }
    forall id | id in ops ensures OpOk(m, w', ops[id]) {
      assert OpOk(m, w, ops[id]);
    }
  }

  lemma WithoutKeepsInv(m: Manager, w: World, id: nat)
    requires Inv(m, w)
    ensures Inv(m, w.(ops := Without(w.ops, id)))
  {
    OpsChangeKeepsInv(m, w, Without(w.ops, id));
  }

  lemma GiveUpKeepsInv(m: Manager, w: World, id: nat)
    requires Inv(m, w) && id in w.ops && w.ops[id].Login?
    ensures Inv(m, w.(ops := w.ops[id := Leaving(w.ops[id].alias, w.ops[id].attempt)]))
  {
    assert OpOk(m, w, w.ops[id]);
    OpsChangeKeepsInv(m, w, w.ops[id := Leaving(w.ops[id].alias, w.ops[id].attempt)]);
  }

  lemma ResumeKeepsInv(m: Manager, w: World, id: nat, alias: string)
    requires Inv(m, w) && id !in w.ops && !Locked(w, alias)
    requires Load(m, w.disk, alias).Some? && Load(m, w.disk, alias).value.pending.Some?
    ensures Inv(m, w.(ops := w.ops[id := Verifying(Load(m, w.disk, alias).value)]))
  {
    VisibleOk(m, w);
    assert AccountOk(m, w, alias, w.disk.Current(m.profile).oauth[alias]);
    OpsChangeKeepsInv(m, w, w.ops[id := Verifying(Load(m, w.disk, alias).value)]);
  }

  lemma ClearingKeepsInv(m: Manager, w: World, alias: string, io: Io)
    requires Inv(m, w) && !Locked(w, alias)
    ensures Inv(m, w.(disk := w.disk.ClearUnpublished(m.SlotOf(alias), io).disk))
  {
    hide Disk.ClearUnpublished;
    ClearKeepsSound(w.disk, m.SlotOf(alias), io);
    var w' := w.(disk := w.disk.ClearUnpublished(m.SlotOf(alias), io).disk);
    assert w'.disk.DocumentFile(m.profile) == w.disk.DocumentFile(m.profile);
    SameAccountsKeepInv(m, w, w');
  }

  lemma ForeignKeepsInv(m: Manager, w: World, action: Action)
    requires Inv(m, w) && Outside(m, action)
    ensures Inv(m, w.(disk := Act(w.disk, m.codec, action)))
  {
    OutsideKeeps(m, w.disk, action);
    SameAccountsKeepInv(m, w, w.(disk := Act(w.disk, m.codec, action)));
  }

  lemma TableKeepsInv(m: Manager, w: World, e: Event)
    requires Inv(m, w) && !e.Logout? && !e.Foreign? && !e.PowerLoss?
    ensures Inv(m, Idle(m, w, e))
  {
    match e {
      case FinishLogin(id, _, _, _) => if id in w.ops && w.ops[id].Login? { GiveUpKeepsInv(m, w, id); }
      case StartRefresh(id, alias, env) => if Idle(m, w, e) != w { ResumeKeepsInv(m, w, id, alias); }
      case DropLogin(id, _) => WithoutKeepsInv(m, w, id);
      case RenewFailed(id) => WithoutKeepsInv(m, w, id);
      case RenewVerified(id, _, _, _) => WithoutKeepsInv(m, w, id);
      case RenewPending(id, _, _) => WithoutKeepsInv(m, w, id);
      case Verified(id, _, _) => WithoutKeepsInv(m, w, id);
      case Kill(id) => WithoutKeepsInv(m, w, id);
      case _ =>
    }
  }

  lemma IdleKeepsInv(m: Manager, w: World, e: Event)
    requires Inv(m, w)
    ensures Inv(m, Idle(m, w, e))
  {
    hide Inv, Locked, Load, Accepted, Disk.ClearUnpublished, Disk.PowerLoss, Act;
    match e {
      case Logout(alias, env) => if Idle(m, w, e) != w { ClearingKeepsInv(m, w, alias, env.io); }
      case Foreign(action) => if Outside(m, action) { ForeignKeepsInv(m, w, action); }
      case PowerLoss(pick) => PowerLossKeepsInv(m, w, pick);
      case _ => TableKeepsInv(m, w, e);
    }
  }

  lemma StepKeepsInv(m: Manager, w: World, e: Event)
    requires Inv(m, w)
    ensures Inv(m, Apply(m, w, e))
  {
    if Draft(m, w, e).Some? {
      StepKeepsVersions(m, w, e);
      StepKeepsSpent(m, w, e);
      StepKeepsOps(m, w, e);
    } else {
      IdleKeepsInv(m, w, e);
    }
  }

  lemma {:induction false} RunsKeepInv(m: Manager, w: World, events: seq<Event>)
    requires Inv(m, w)
    ensures Inv(m, Accounts.Run(m, w, events))
  {
    if events != [] {
      RunsKeepInv(m, w, events[..|events| - 1]);
      StepKeepsInv(m, Accounts.Run(m, w, events[..|events| - 1]), events[|events| - 1]);
    }
  }

  lemma StartOk(m: Manager)
    ensures Inv(m, Start)
  {
    RunIsSound(m.codec, []);
  }

  /** Some interleaving leads from one world to the other. */
  ghost predicate Leads(m: Manager, w: World, w': World) { exists events :: w' == Accounts.Run(m, w, events) }

  ghost predicate Reachable(m: Manager, w: World) { Leads(m, Start, w) }

  /** The invariant is kept by every interleaving of operations, faults in any write, kills and power losses. */
  lemma EveryRunKeepsInv(m: Manager, w: World, w': World)
    requires Inv(m, w) && Leads(m, w, w')
    ensures Inv(m, w')
  {
    var events :| w' == Accounts.Run(m, w, events);
    RunsKeepInv(m, w, events);
  }

  lemma ReachableIsInOrder(m: Manager, w: World)
    requires Reachable(m, w)
    ensures Inv(m, w)
  {
    StartOk(m);
    EveryRunKeepsInv(m, Start, w);
  }
}
