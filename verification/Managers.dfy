/**
 The transactions of `manager.rs` as they run: an account is loaded, changed
 field by field and published, proved against the drafts.
 */
module Managers {
  import opened Prelude
  import opened Records
  import opened Store
  import opened StoreRuns
  import opened Directories
  import opened Accounts

  /** An account while a transaction changes it. */
  class LiveAccount {
    const profile: string
    const alias: string
    var client: string
    var identity: Option<Identity>
    var revision: nat
    var generation: nat
    var attempt: Option<string>
    var state: AccountState
    var credential: Option<Credential>
    var pending: Option<Credential>

    function Value(): Account
      reads this
    {
      Account(profile, alias, client, identity, revision, generation, attempt, state, credential, pending)
    }

    constructor (account: Account)
      ensures Value() == account
    {
      profile, alias, client, identity := account.profile, account.alias, account.client, account.identity;
      revision, generation, attempt := account.revision, account.generation, account.attempt;
      state, credential, pending := account.state, account.credential, account.pending;
    }

    method Advance() returns (ok: bool)
      modifies this`revision
      ensures ok <==> old(Value()).Advance().Some?
      ensures Value() == if ok then old(Value()).Advance().value else old(Value())
    {
      ok := revision < MAX_U64;
      if ok {
        revision := revision + 1;
      }
    }

    method ReplaceCredential(next: Option<Credential>) returns (ok: bool)
      modifies this`generation, this`credential
      ensures ok <==> old(Value()).Replace(next).Some?
      ensures Value() == if ok then old(Value()).Replace(next).value else old(Value())
    {
      ok := generation < MAX_U64;
      if ok {
        generation, credential := generation + 1, next;
      }
    }
  }

  /** What a transaction does to the disk when it publishes this draft, or none. */
  ghost predicate Transacts(m: Manager, d: Disk, draft: Option<Account>, io: Io, after: Disk, r: Outcome) {
    if draft.None? then after == d
    else Result(after, r) == d.Publish(m.codec, m.profile, draft.value.alias, AccountRecord(draft.value), io)
  }

  /** The settled account names this login's ticket. */
  predicate Owned(m: Manager, d: Disk, op: Op)
    requires op.Login?
  {
    && Load(m, d, op.alias).Some? && !d.Recovery(m.SlotOf(op.alias))
    && Load(m, d, op.alias).value.attempt == Some(op.attempt)
  }

  /** The ghost `w` of a transaction is any world on this disk; locks are the caller's. */
  class CredentialManager {
    const m: Manager
    const directory: Directory

    ghost predicate Valid()
      reads directory
    {
      directory.codec == m.codec && directory.State().Sound()
    }

    constructor (m: Manager)
      ensures this.m == m && Valid() && fresh(directory) && directory.State() == EmptyDisk
    {
      this.m := m;
      directory := new Directory(m.codec);
    }

    /** `load`: a record in recovery is read without its material, and the driver validates what is read. */
    method LoadAccount(alias: string) returns (ok: bool, r: Option<LiveAccount>)
      ensures ok <==> Accepted(m, directory.State(), alias)
      ensures ok ==> (r.Some? <==> Load(m, directory.State(), alias).Some?)
      ensures !ok ==> r.None? && Load(m, directory.State(), alias).Some?
      ensures r.Some? ==> fresh(r.value) && r.value.Value() == Load(m, directory.State(), alias).value
    {
      var document := directory.State().Current(m.profile);
      if alias !in document.oauth {
        return true, None;
      }
      var account := new LiveAccount(document.oauth[alias]);
      if directory.State().Recovery(m.SlotOf(alias)) {
        account.credential := None;
        account.pending := None;
        account.state := NeedsReauthorization;
        account.attempt := None;
      }
      if !m.validates(account.client, account.identity, account.credential) {
        return false, None;
      }
      ok, r := true, Some(account);
    }

    method Publish(account: LiveAccount, io: Io) returns (r: Outcome)
      requires Valid()
      modifies directory
      ensures Valid()
      ensures Transacts(m, old(directory.State()), Some(account.Value()), io, directory.State(), r)
    {
      r := directory.PublishRecord(m.profile, account.alias, AccountRecord(account.Value()), io);
    }

    method BeginLogin(ghost w: World, alias: string, client: string, attempt: string, io: Io) returns (r: Outcome)
      requires Valid() && w.disk == directory.State()
      modifies directory
      ensures Valid() && Transacts(m, w.disk, DraftBegin(m, w, alias, client, attempt), io, directory.State(), r)
      ensures DraftBegin(m, w, alias, client, attempt).None? ==> r.Failed?
      ensures !Accepted(m, w.disk, alias) ==> r == Failed(Invalid)
      ensures Accepted(m, w.disk, alias) && Load(m, w.disk, alias).Some? ==>
                var account := Load(m, w.disk, alias).value;
                && (account.client != client && !m.dynamic ==> r == Failed(IdentityMismatch))
                && ((account.client == client || m.dynamic) && account.pending.Some? ==> r == Failed(Error.Busy))
    {
      hide Disk.Publish, Disk.Sound, Accepted, Available, ValidGrant, Disk.Recovery;
      var ok, loaded := LoadAccount(alias);
      if !ok {
        return Failed(Invalid);
      }
      var account;
      if loaded.Some? {
        account := loaded.value;
      } else {
        account := new LiveAccount(NewAccount(m.profile, alias, client));
      }
      if account.client != client && !m.dynamic {
        return Failed(IdentityMismatch);
      }
      if account.pending.Some? {
        return Failed(Error.Busy);
      }
      account.attempt := Some(attempt);
      ok := account.Advance();
      if !ok {
        return Failed(Error.Storage);
      }
      r := Publish(account, io);
    }

    /** The callback by which a driver keeps the client that it has registered. */
    method RetainClient(ghost w: World, op: Op, issued: string, io: Io) returns (r: Outcome)
      requires Valid() && w.disk == directory.State() && op.Login?
      modifies directory
      ensures Valid() && Transacts(m, w.disk, DraftRetain(m, w, op, issued), io, directory.State(), r)
      ensures Accepted(m, w.disk, op.alias) && !Owned(m, w.disk, op) ==> r == Failed(Superseded)
      ensures Accepted(m, w.disk, op.alias) && Owned(m, w.disk, op) && DraftRetain(m, w, op, issued).None? ==>
                (r == Done <==> Load(m, w.disk, op.alias).value.client == issued)
    {
      hide Disk.Publish, Disk.Sound, Accepted, Available, ValidGrant, Disk.Recovery;
      var ok, loaded := LoadAccount(op.alias);
      if !ok {
        return Failed(Invalid);
      }
      if loaded.None? || directory.State().Recovery(m.SlotOf(op.alias)) || loaded.value.attempt != Some(op.attempt) {
        return Failed(Superseded);
      }
      var account := loaded.value;
      if account.client == issued {
        return Done;
      }
      if !m.dynamic || op.client != op.initial || account.client != op.initial
         || account.identity.Some? || issued == op.initial {
        return Failed(IdentityMismatch);
      }
      if !m.validates(issued, None, None) {
        return Failed(Invalid);
      }
      account.client := issued;
      ok := account.Advance();
      if !ok {
        return Failed(Error.Storage);
      }
      r := Publish(account, io);
    }

    /**
     The loop of a login's end: no other alias of the profile is bound to this
     client and principal, and all of them could be listed and loaded.
     */
    method CheckAvailable(alias: string, client: string, identity: Identity, io: Io) returns (e: Option<Error>)
      ensures e.None? <==> Available(m, directory.State(), alias, client, identity, io)
    {
      hide Disk.Aliases, Disk.Sound;
      var d := directory.State();
      var listing := directory.Aliases(m.profile, OAuth, io);
      if listing.Unlisted? {
        return Some(listing.error);
      }
      ListedRecords(d, m.profile, OAuth, io);
      var names := listing.aliases;
      ghost var accounts := d.Current(m.profile).oauth;
      while names != {}
        invariant forall other :: other in accounts && other != alias && other !in names ==>
                    Accepted(m, d, other) && (accounts[other].client != client
                      || accounts[other].identity != Some(identity))
        decreases |names|
      {
        var other :| other in names;
        names := names - {other};
        if other != alias {
          var ok, account := LoadAccount(other);
          if !ok {
            return Some(Invalid);
          }
          if account.Some? && account.value.client == client && account.value.identity == Some(identity) {
            return Some(IdentityMismatch);
          }
        }
      }
      e := None;
    }

    method FinishLogin(ghost w: World, op: Op, grant: Grant, io: Io) returns (r: Outcome)
      requires Valid() && w.disk == directory.State() && op.Login?
      modifies directory
      ensures Valid() && Transacts(m, w.disk, DraftFinish(m, w, op, grant, io), io, directory.State(), r)
      ensures DraftFinish(m, w, op, grant, io).None? ==> r.Failed?
      ensures Accepted(m, w.disk, op.alias) && !Owned(m, w.disk, op) ==> r == Failed(Superseded)
      ensures Accepted(m, w.disk, op.alias) && Owned(m, w.disk, op) ==>
                var account := Load(m, w.disk, op.alias).value;
                (account.identity.Some? && account.identity != Some(grant.identity)) ==> r == Failed(IdentityMismatch)
    {
      hide Disk.Publish, Disk.Sound, Accepted, Available, ValidGrant, Disk.Recovery;
      var ok, loaded := LoadAccount(op.alias);
      if !ok {
        return Failed(Invalid);
      }
      if loaded.None? || directory.State().Recovery(m.SlotOf(op.alias)) || loaded.value.attempt != Some(op.attempt) {
        return Failed(Superseded);
      }
      var account := loaded.value;
      if (!m.dynamic && account.client != op.client)
         || (account.identity.Some? && account.identity != Some(grant.identity)) {
        return Failed(IdentityMismatch);
      }
      if !ValidGrant(m, account.client, grant) {
        return Failed(Invalid);
      }
      var unavailable := CheckAvailable(op.alias, account.client, grant.identity, io);
      if unavailable.Some? {
        return Failed(unavailable.value);
      }
      account.identity := Some(grant.identity);
      account.attempt := None;
      r := PublishActive(account, grant.credential, io);
    }

    /** The last steps of a login and of a renewal. */
    method PublishActive(account: LiveAccount, credential: Credential, io: Io) returns (r: Outcome)
      requires Valid()
      modifies directory, account
      ensures Valid()
      ensures Transacts(m, old(directory.State()), Activate(old(account.Value()), credential), io, directory.State(), r)
      ensures Activate(old(account.Value()), credential).None? ==> r == Failed(Error.Storage)
    {
      var ok := account.ReplaceCredential(Some(credential));
      if !ok {
        return Failed(Error.Storage);
      }
      account.state := Active;
      ok := account.Advance();
      if !ok {
        return Failed(Error.Storage);
      }
      r := Publish(account, io);
    }

    /** `LoginTicket::drop` */
    method DropTicket(ghost w: World, op: Op, io: Io) returns (r: Outcome)
      requires Valid() && w.disk == directory.State() && (op.Login? || op.Leaving?)
      modifies directory
      ensures Valid() && Transacts(m, w.disk, DraftDrop(m, w, op), io, directory.State(), r)
    {
      var document := directory.State().Current(m.profile);
      if op.alias !in document.oauth || directory.State().Recovery(m.SlotOf(op.alias)) {
        return Done;
      }
      var account := new LiveAccount(document.oauth[op.alias]);
      if account.attempt != Some(op.attempt) {
        return Done;
      }
      account.attempt := None;
      var ok := account.Advance();
      if !ok {
        return Done;
      }
      r := Publish(account, io);
    }

    /** The first half of `refresh`: the credential leaves the store before it may be spent. */
    method StartRefresh(ghost w: World, alias: string, io: Io) returns (r: Outcome, previous: Option<Credential>)
      requires Valid() && w.disk == directory.State()
      modifies directory
      ensures Valid() && Transacts(m, w.disk, DraftRefresh(m, w, alias), io, directory.State(), r)
      ensures previous.Some? <==> DraftRefresh(m, w, alias).Some? && r == Done
      ensures previous.Some? ==> Load(m, w.disk, alias).Some? && Load(m, w.disk, alias).value.credential == previous
      ensures Accepted(m, w.disk, alias) && Load(m, w.disk, alias).None? ==> r == Failed(LoginRequired)
      ensures Accepted(m, w.disk, alias) && Load(m, w.disk, alias).Some? && DraftRefresh(m, w, alias).None? ==>
                var account := Load(m, w.disk, alias).value;
                && (r == Done <==> account.pending.Some?)
                && (account.pending.None? && account.credential.None? ==> r == Failed(LoginRequired))
    {
      hide Disk.Publish, Disk.Sound, Accepted, Available, ValidGrant, Disk.Recovery;
      previous := None;
      var ok, loaded := LoadAccount(alias);
      if !ok {
        return Failed(Invalid), None;
      }
      if loaded.None? {
        return Failed(LoginRequired), None;
      }
      var account := loaded.value;
      if account.pending.Some? {
        return Done, None;
      }
      if account.credential.None? || account.credential.value.refresh.None? {
        return Failed(LoginRequired), None;
      }
      var taken := account.credential;
      account.credential := None;
      ok := account.ReplaceCredential(None);
      if !ok {
        return Failed(Error.Storage), None;
      }
      account.state := NeedsReauthorization;
      account.attempt := None;
      ok := account.Advance();
      if !ok {
        return Failed(Error.Storage), None;
      }
      r := Publish(account, io);
      if r == Done {
        previous := taken;
      }
    }

    /** The renewed credential of a verified renewal; `held` is the account that `StartRefresh` published. */
    method FinishRenewal(ghost w: World, held: Account, grant: Grant, io: Io) returns (r: Outcome)
      requires Valid() && w.disk == directory.State()
      modifies directory
      ensures Valid() && Transacts(m, w.disk, DraftRenewed(m, w, held, grant), io, directory.State(), r)
      ensures DraftRenewed(m, w, held, grant).None? ==> r.Failed?
      ensures ValidGrant(m, held.client, grant) && held.identity != Some(grant.identity)
              ==> r == Failed(IdentityMismatch)
    {
      hide Disk.Publish, Disk.Sound, Accepted, Available, ValidGrant, Disk.Recovery;
      if !ValidGrant(m, held.client, grant) {
        return Failed(Invalid);
      }
      if held.identity != Some(grant.identity) {
        return Failed(IdentityMismatch);
      }
      var ok, current := LoadAccount(held.alias);
      if !ok {
        return Failed(Invalid);
      }
      if current.None? || directory.State().Recovery(m.SlotOf(held.alias)) || current.value.revision != held.revision
         || current.value.client != held.client || current.value.identity != held.identity
           || current.value.attempt.Some? {
        return Failed(Superseded);
      }
      var account := new LiveAccount(held);
      r := PublishActive(account, grant.credential, io);
    }

    /** The unverified replacement is stored before it is verified. */
    method StorePending(held: Account, credential: Credential, io: Io) returns (r: Outcome)
      requires Valid()
      modifies directory
      ensures Valid()
      ensures Transacts(m, old(directory.State()), held.(pending := Some(credential)).Advance(),
        io, directory.State(), r)
      ensures held.revision >= MAX_U64 ==> r == Failed(Error.Storage)
    {
      var account := new LiveAccount(held);
      account.pending := Some(credential);
      var ok := account.Advance();
      if !ok {
        return Failed(Error.Storage);
      }
      r := Publish(account, io);
    }

    /** `complete_renewal` */
    method CompleteRenewal(ghost w: World, held: Account, identity: Identity, io: Io) returns (r: Outcome)
      requires Valid() && w.disk == directory.State()
      modifies directory
      ensures Valid() && Transacts(m, w.disk, DraftVerified(m, w, held, identity), io, directory.State(), r)
      ensures DraftVerified(m, w, held, identity).None? ==> r.Failed?
      ensures held.pending.Some? && held.identity != Some(identity) ==> r == Failed(IdentityMismatch)
    {
      hide Disk.Publish, Disk.Sound, Accepted, Available, ValidGrant, Disk.Recovery;
      if held.pending.None? {
        return Failed(Error.Storage);
      }
      if held.identity != Some(identity) {
        return Failed(IdentityMismatch);
      }
      if !m.validates(held.client, held.identity, held.pending) {
        return Failed(Invalid);
      }
      var ok, current := LoadAccount(held.alias);
      if !ok {
        return Failed(Invalid);
      }
      if current.None? || directory.State().Recovery(m.SlotOf(held.alias)) || current.value.revision != held.revision {
        return Failed(Superseded);
      }
      var account := new LiveAccount(held);
      var pending := account.pending.value;
      account.pending := None;
      r := PublishActive(account, pending, io);
    }

    /** The last steps of a logout. */
    method PublishSignedOut(account: LiveAccount, io: Io) returns (r: Outcome)
      requires Valid()
      modifies directory, account
      ensures Valid()
      ensures Transacts(m, old(directory.State()), SignOut(old(account.Value())), io, directory.State(), r)
      ensures SignOut(old(account.Value())).None? ==> r == Failed(Error.Storage)
    {
      hide Disk.Publish, Disk.Sound;
      if account.credential.Some? {
        account.credential := None;
      } else {
        account.pending := None;
      }
      var ok := account.ReplaceCredential(None);
      if !ok {
        return Failed(Error.Storage);
      }
      account.state := SignedOut;
      account.attempt := None;
      ok := account.Advance();
      if !ok {
        return Failed(Error.Storage);
      }
      r := Publish(account, io);
    }

    method Logout(ghost w: World, alias: string, io: Io) returns (r: Outcome)
      requires Valid() && w.disk == directory.State()
      modifies directory
      ensures Valid()
      ensures Load(m, w.disk, alias).Some? ==> Transacts(m, w.disk, DraftLogout(m, w, alias), io, directory.State(), r)
      ensures Load(m, w.disk, alias).None? ==>
                directory.State() == if w.disk.Recovery(m.SlotOf(alias))
                  then w.disk.ClearUnpublished(m.SlotOf(alias), io).disk else w.disk
      ensures !Accepted(m, w.disk, alias) ==> r == Failed(Invalid)
      ensures Load(m, w.disk, alias).None? && !w.disk.Recovery(m.SlotOf(alias)) ==> r == Done
      ensures Load(m, w.disk, alias).Some? && DraftLogout(m, w, alias).None? ==> r.Failed?
    {
      hide Disk.Publish, Disk.ClearUnpublished, Disk.Sound, Accepted, Disk.Recovery;
      var ok, loaded := LoadAccount(alias);
      if !ok {
        return Failed(Invalid);
      }
      if loaded.None? {
        if directory.State().Recovery(m.SlotOf(alias)) {
          r := directory.ClearUnpublished(m.SlotOf(alias), io);
          return;
        }
        return Done;
      }
      r := PublishSignedOut(loaded.value, io);
    }
  }
}
