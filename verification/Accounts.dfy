/**
 The authorization lifecycle of `manager.rs` for one profile: every store
 transaction of login, refresh and logout is one step, network waits are the
 gaps between steps, and steps of any operations interleave.
 */
module Accounts {
  import opened Prelude
  import opened Records
  import opened Store
  import opened StoreRuns

  /**
   The driver of one profile (what its `validate` accepts, what its
   `check_access` lends), and the codec of the store below it.
   */
  datatype Manager = Manager(
    profile: string,
    dynamic: bool,
    validates: (string, Option<Identity>, Option<Credential>) -> bool,
    lends: Credential -> bool,
    codec: Codec)
  {
    function SlotOf(alias: string): Slot { Slot(profile, OAuth, alias) }
  }

  /** An operation that is between two of its transactions. The last two hold the account lock. */
  datatype Op =
    | Login(alias: string, initial: string, client: string, attempt: string)
    | Leaving(alias: string, attempt: string)
    | Renewing(account: Account, previous: Credential)
    | Verifying(account: Account)
  {
    predicate Holds() { Renewing? || Verifying? }

    function Alias(): string {
      match this
      case Login(alias, _, _, _) => alias
      case Leaving(alias, _) => alias
      case Renewing(account, _) => account.alias
      case Verifying(account) => account.alias
    }
  }

  /**
   Where an issued credential came from: its alias, the principal that was
   confirmed for it, if any was, its refresh token, and the credential whose
   refresh token it kept because its own answer brought no new one.
   */
  datatype Origin = Origin(alias: string, verified: Option<Identity>, refresh: Option<nat>, kept: Option<nat>)

  /**
   The disk, the operations under way, and three histories: the credentials
   issued, the credentials handed to `driver.renew`, and the login tickets drawn.
   */
  datatype World = World(
    disk: Disk,
    ops: map<nat, Op>,
    issued: seq<Origin>,
    renewed: seq<nat>,
    attempts: set<string>)

  datatype Grant = Grant(identity: Identity, credential: Credential)

  /**
   The refresh token of a token answer: none at all, a new one, or the one that
   was presented, repeated or left out.
   */
  datatype Refresh = NoToken | NewToken | SameToken

  datatype Answer = Answer(refresh: Refresh, expiresAt: Option<nat>)

  /** A new token is named by the credential that brings it. Without a previous credential there is none to keep. */
  function Received(w: World, answer: Answer, previous: Option<Credential>): Option<Credential> {
    match answer.refresh
    case NoToken => Some(Credential(|w.issued|, None, answer.expiresAt))
    case NewToken => Some(Credential(|w.issued|, Some(|w.issued|), answer.expiresAt))
    case SameToken =>
      if previous.Some? then Some(Credential(|w.issued|, previous.value.refresh, answer.expiresAt)) else None
  }

  /** What one transaction meets: the file system, and whether it gets its locks and well-formed input. */
  datatype Env = Env(io: Io, granted: bool)

  datatype Event =
    | BeginLogin(id: nat, alias: string, client: string, attempt: string, env: Env)
    | RetainClient(id: nat, client: string, env: Env)
    | FinishLogin(id: nat, identity: Identity, answer: Answer, env: Env)
    | DropLogin(id: nat, env: Env)
    | StartRefresh(id: nat, alias: string, env: Env)
    | RenewFailed(id: nat)
    | RenewVerified(id: nat, identity: Identity, answer: Answer, env: Env)
    | RenewPending(id: nat, answer: Answer, env: Env)
    | Verified(id: nat, identity: Identity, env: Env)
    | Logout(alias: string, env: Env)
    | Foreign(action: Action)
    | Kill(id: nat)
    | PowerLoss(pick: Pick)

  // ---- Reading ----

  /** `load`: a record in recovery is read without its material. */
  function Load(m: Manager, d: Disk, alias: string): Option<Account> {
    if alias !in d.Current(m.profile).oauth then None
    else if d.Recovery(m.SlotOf(alias)) then Some(Quarantine(d.Current(m.profile).oauth[alias]))
    else Some(d.Current(m.profile).oauth[alias])
  }

  /** The driver accepts the account as it is loaded; `load` fails otherwise. */
  predicate Accepted(m: Manager, d: Disk, alias: string) {
    var loaded := Load(m, d, alias);
    loaded.Some? ==> m.validates(loaded.value.client, loaded.value.identity, loaded.value.credential)
  }

  predicate Locked(w: World, alias: string) {
    exists id :: id in w.ops && w.ops[id].Holds() && w.ops[id].Alias() == alias
  }

  /** No other alias of the profile is bound to this client and principal. */
  predicate Unclaimed(m: Manager, d: Disk, alias: string, client: string, identity: Identity) {
    forall other :: other in d.Current(m.profile).oauth && other != alias ==>
      var account := d.Current(m.profile).oauth[other];
      account.client != client || account.identity != Some(identity)
  }

  /**
   The aliases of the profile can be listed and every other one loaded, and none
   is bound to this client and principal.
   */
  predicate Available(m: Manager, d: Disk, alias: string, client: string, identity: Identity, io: Io) {
    && d.Aliases(m.profile, OAuth, io).Listed?
    && (forall other :: other in d.Current(m.profile).oauth && other != alias ==> Accepted(m, d, other))
    && Unclaimed(m, d, alias, client, identity)
  }

  // ---- The account each transaction publishes ----

  function DraftBegin(m: Manager, w: World, alias: string, client: string, attempt: string): Option<Account> {
    var loaded := Load(m, w.disk, alias);
    var account := if loaded.Some? then loaded.value else NewAccount(m.profile, alias, client);
    if !Accepted(m, w.disk, alias) then None
    else if account.client != client && !m.dynamic then None
    else if account.pending.Some? then None
    else account.(attempt := Some(attempt)).Advance()
  }

  function DraftRetain(m: Manager, w: World, op: Op, client: string): Option<Account>
    requires op.Login?
  {
    var loaded := Load(m, w.disk, op.alias);
    if !Accepted(m, w.disk, op.alias) then None
    else if loaded.None? || w.disk.Recovery(m.SlotOf(op.alias)) || loaded.value.attempt != Some(op.attempt) then None
    else if loaded.value.client == client then None
    else if !m.dynamic || op.client != op.initial || loaded.value.client != op.initial
            || loaded.value.identity.Some? || client == op.initial then None
    else if !m.validates(client, None, None) then None
    else loaded.value.(client := client).Advance()
  }

  function Activate(account: Account, credential: Credential): Option<Account> {
    match account.Replace(Some(credential))
    case None => None
    case Some(next) => next.(state := Active).Advance()
  }

  /** `validate_grant` */
  predicate ValidGrant(m: Manager, client: string, grant: Grant) {
    grant.credential.Valid() && m.validates(client, Some(grant.identity), Some(grant.credential))
  }

  function DraftFinish(m: Manager, w: World, op: Op, grant: Grant, io: Io): Option<Account>
    requires op.Login?
  {
    var loaded := Load(m, w.disk, op.alias);
    if !Accepted(m, w.disk, op.alias) then None
    else if loaded.None? || w.disk.Recovery(m.SlotOf(op.alias)) || loaded.value.attempt != Some(op.attempt) then None
    else if (!m.dynamic && loaded.value.client != op.client)
            || (loaded.value.identity.Some? && loaded.value.identity != Some(grant.identity)) then None
    else if !ValidGrant(m, loaded.value.client, grant) then None
    else if !Available(m, w.disk, op.alias, loaded.value.client, grant.identity, io) then None
    else Activate(loaded.value.(identity := Some(grant.identity), attempt := None), grant.credential)
  }

  /** `LoginTicket::drop` reads the raw record and gives up on one in recovery. */
  function DraftDrop(m: Manager, w: World, op: Op): Option<Account>
    requires op.Login? || op.Leaving?
  {
    var slot := m.SlotOf(op.alias);
    if op.alias !in w.disk.Current(m.profile).oauth || w.disk.Recovery(slot) then None
    else
      var account := w.disk.Current(m.profile).oauth[op.alias];
      if account.attempt != Some(op.attempt) then None else account.(attempt := None).Advance()
  }

  function DraftRefresh(m: Manager, w: World, alias: string): Option<Account> {
    var loaded := Load(m, w.disk, alias);
    if loaded.None? || !Accepted(m, w.disk, alias) || loaded.value.pending.Some? then None
    else if loaded.value.credential.None? || loaded.value.credential.value.refresh.None? then None
    else
      match loaded.value.Replace(None)
      case None => None
      case Some(next) => next.(state := NeedsReauthorization, attempt := None).Advance()
  }

  function DraftRenewed(m: Manager, w: World, account: Account, grant: Grant): Option<Account> {
    var loaded := Load(m, w.disk, account.alias);
    if !ValidGrant(m, account.client, grant) || account.identity != Some(grant.identity) then None
    else if !Accepted(m, w.disk, account.alias) then None
    else if loaded.None? || w.disk.Recovery(m.SlotOf(account.alias)) || loaded.value.revision != account.revision
            || loaded.value.client != account.client || loaded.value.identity != account.identity
            || loaded.value.attempt.Some? then None
    else Activate(account, grant.credential)
  }

  function DraftVerified(m: Manager, w: World, account: Account, identity: Identity): Option<Account> {
    var loaded := Load(m, w.disk, account.alias);
    if account.pending.None? || account.identity != Some(identity) then None
    else if !m.validates(account.client, account.identity, account.pending) then None
    else if !Accepted(m, w.disk, account.alias) then None
    else if loaded.None? || w.disk.Recovery(m.SlotOf(account.alias)) || loaded.value.revision != account.revision
       then None
    else Activate(account.(pending := None), account.pending.value)
  }

  /** Nothing is left of an account that signs out but what it is bound to. */
  function SignOut(account: Account): Option<Account> {
    match account.(pending := if account.credential.Some? then account.pending else None).Replace(None)
    case None => None
    case Some(next) => next.(state := SignedOut, attempt := None).Advance()
  }

  function DraftLogout(m: Manager, w: World, alias: string): Option<Account> {
    var loaded := Load(m, w.disk, alias);
    if loaded.None? || !Accepted(m, w.disk, alias) then None else SignOut(loaded.value)
  }

  /** The account that this step tries to publish, when it gets that far. */
  function Draft(m: Manager, w: World, e: Event): Option<Account> {
    match e
    case BeginLogin(id, alias, client, attempt, env) =>
      if !env.granted || Locked(w, alias) || id in w.ops || attempt in w.attempts then None
      else DraftBegin(m, w, alias, client, attempt)
    case RetainClient(id, client, env) =>
      if !env.granted || id !in w.ops || !w.ops[id].Login? || Locked(w, w.ops[id].alias) then None
      else DraftRetain(m, w, w.ops[id], client)
    case FinishLogin(id, identity, answer, env) =>
      if !env.granted || id !in w.ops || !w.ops[id].Login? || Locked(w, w.ops[id].alias) then None
      else
        (match Received(w, answer, None)
         case None => None
         case Some(credential) => DraftFinish(m, w, w.ops[id], Grant(identity, credential), env.io))
    case DropLogin(id, env) =>
      if !env.granted || id !in w.ops || w.ops[id].Holds() || Locked(w, w.ops[id].Alias()) then None
      else DraftDrop(m, w, w.ops[id])
    case StartRefresh(id, alias, env) =>
      if !env.granted || Locked(w, alias) || id in w.ops then None else DraftRefresh(m, w, alias)
    case RenewVerified(id, identity, answer, env) =>
      if !env.granted || id !in w.ops || !w.ops[id].Renewing? then None
      else
        (match Received(w, answer, Some(w.ops[id].previous))
         case None => None
         case Some(credential) => DraftRenewed(m, w, w.ops[id].account, Grant(identity, credential)))
    case RenewPending(id, answer, env) =>
      if !env.granted || id !in w.ops || !w.ops[id].Renewing? then None
      else
        (match Received(w, answer, Some(w.ops[id].previous))
         case None => None
         case Some(credential) => w.ops[id].account.(pending := Some(credential)).Advance())
    case Verified(id, identity, env) =>
      if !env.granted || id !in w.ops || !w.ops[id].Verifying? then None
      else DraftVerified(m, w, w.ops[id].account, identity)
    case Logout(alias, env) =>
      if !env.granted || Locked(w, alias) then None else DraftLogout(m, w, alias)
    case _ => None
  }

  // ---- What the step does besides ----

  function Without(ops: map<nat, Op>, id: nat): map<nat, Op> { ops - {id} }

  /** A step that publishes nothing. */
  function Idle(m: Manager, w: World, e: Event): World {
    match e
    case FinishLogin(id, _, _, _) =>
      if id in w.ops && w.ops[id].Login?
        then w.(ops := w.ops[id := Leaving(w.ops[id].alias, w.ops[id].attempt)]) else w
    case DropLogin(id, _) => if id in w.ops && !w.ops[id].Holds() then w.(ops := Without(w.ops, id)) else w
    case StartRefresh(id, alias, env) =>
      var loaded := Load(m, w.disk, alias);
      if env.granted && id !in w.ops && !Locked(w, alias) && Accepted(m, w.disk, alias)
         && loaded.Some? && loaded.value.pending.Some?
        then w.(ops := w.ops[id := Verifying(loaded.value)]) else w
    case RenewFailed(id) => if id in w.ops && w.ops[id].Renewing? then w.(ops := Without(w.ops, id)) else w
    case RenewVerified(id, _, _, _) => if id in w.ops && w.ops[id].Renewing? then w.(ops := Without(w.ops, id)) else w
    case RenewPending(id, _, _) => if id in w.ops && w.ops[id].Renewing? then w.(ops := Without(w.ops, id)) else w
    case Verified(id, _, _) => if id in w.ops && w.ops[id].Verifying? then w.(ops := Without(w.ops, id)) else w
    case Logout(alias, env) =>
      if env.granted && !Locked(w, alias) && Load(m, w.disk, alias).None? && w.disk.Recovery(m.SlotOf(alias))
        then w.(disk := w.disk.ClearUnpublished(m.SlotOf(alias), env.io).disk) else w
    case Foreign(action) => if Outside(m, action) then w.(disk := Act(w.disk, m.codec, action)) else w
    case Kill(id) => w.(ops := Without(w.ops, id))
    case PowerLoss(pick) => w.(disk := w.disk.PowerLoss(pick), ops := map[])
    case _ => w
  }

  /** Store actions of other profiles, of operator keys and of pools. */
  predicate Outside(m: Manager, action: Action) {
    match action
    case Publish(provider, _, record, _) => provider != m.profile || record.KeyRecord?
    case ClearUnpublished(slot, _) => slot.provider != m.profile || slot.partition == ApiKey
    case PowerLoss(_) => false
    case _ => true
  }

  /** The entry of the credential that an answer brings. */
  function OriginOf(w: World, answer: Answer, previous: Option<Credential>, alias: string, verified: Option<Identity>)
    : Origin
  {
    var received := Received(w, answer, previous);
    Origin(alias, verified,
           if received.Some? then received.value.refresh else None,
           if answer.refresh.SameToken? && previous.Some? then Some(previous.value.serial) else None)
  }

  /** The credential that a renewal under way has handed to `driver.renew`. */
  function Previous(w: World, id: nat): Option<Credential> {
    if id in w.ops && w.ops[id].Renewing? then Some(w.ops[id].previous) else None
  }

  /** The credentials issued once this step has taken up its answer, and the principal it has confirmed. */
  function Issue(w: World, e: Event, draft: Account): seq<Origin> {
    match e
    case FinishLogin(_, identity, answer, _) => w.issued + [OriginOf(w, answer, None, draft.alias, Some(identity))]
    case RenewVerified(id, identity, answer, _) =>
      w.issued + [OriginOf(w, answer, Previous(w, id), draft.alias, Some(identity))]
    case RenewPending(id, answer, _) => w.issued + [OriginOf(w, answer, Previous(w, id), draft.alias, None)]
    case Verified(_, identity, _) =>
      if draft.credential.Some? && draft.credential.value.serial < |w.issued| then
        var serial := draft.credential.value.serial;
        w.issued[serial := w.issued[serial].(verified := Some(identity))]
      else w.issued
    case _ => w.issued
  }

  /** The credential that the start of a refresh takes out of the store. */
  function Taken(m: Manager, w: World, e: Event, draft: Account): Option<Credential> {
    var accounts := w.disk.Current(m.profile).oauth;
    if e.StartRefresh? && draft.alias in accounts then accounts[draft.alias].credential else None
  }

  function NextOps(w: World, e: Event, draft: Account, done: bool, taken: Option<Credential>): map<nat, Op> {
    match e
    case BeginLogin(id, alias, client, attempt, _) =>
      if done then w.ops[id := Login(alias, client, draft.client, attempt)] else w.ops
    case RetainClient(_, _, _) => w.ops
    case FinishLogin(id, _, _, _) =>
      if done || id !in w.ops then Without(w.ops, id)
      else w.ops[id := Leaving(draft.alias, if w.ops[id].Login? then w.ops[id].attempt else "")]
    case StartRefresh(id, _, _) => if done && taken.Some? then w.ops[id := Renewing(draft, taken.value)] else w.ops
    case RenewPending(id, _, _) => if done then w.ops[id := Verifying(draft)] else Without(w.ops, id)
    case DropLogin(id, _) => Without(w.ops, id)
    case RenewVerified(id, _, _, _) => Without(w.ops, id)
    case Verified(id, _, _) => Without(w.ops, id)
    case _ => w.ops
  }

  function EnvOf(e: Event): Env {
    match e
    case BeginLogin(_, _, _, _, env) => env
    case RetainClient(_, _, env) => env
    case FinishLogin(_, _, _, env) => env
    case DropLogin(_, env) => env
    case StartRefresh(_, _, env) => env
    case RenewVerified(_, _, _, env) => env
    case RenewPending(_, _, env) => env
    case Verified(_, _, env) => env
    case Logout(_, env) => env
    case _ => Env(Faultless, false)
  }

  /** One step. When the publication of a renewal's start succeeds, the old credential goes to `driver.renew`. */
  function Apply(m: Manager, w: World, e: Event): World {
    match Draft(m, w, e)
    case None => Idle(m, w, e)
    case Some(draft) =>
      var r := w.disk.Publish(m.codec, m.profile, draft.alias, AccountRecord(draft), EnvOf(e).io);
      var taken := Taken(m, w, e, draft);
      World(
        r.disk,
        NextOps(w, e, draft, r.outcome == Done, taken),
        Issue(w, e, draft),
        if r.outcome == Done && taken.Some? then w.renewed + [taken.value.serial] else w.renewed,
        if e.BeginLogin? then w.attempts + {e.attempt} else w.attempts)
  }

  function Run(m: Manager, w: World, events: seq<Event>): World {
    if events == [] then w
    else Apply(m, Run(m, w, events[..|events| - 1]), events[|events| - 1])
  }

  const Start := World(EmptyDisk, map[], [], [], {})

  // ---- Lending ----

  /** An inference binding pins a principal, not a token. */
  datatype Binding = Binding(alias: string, client: string, identity: Identity)

  function Bind(m: Manager, d: Disk, alias: string): Option<Binding> {
    var loaded := Load(m, d, alias);
    if loaded.None? || !Accepted(m, d, alias) || loaded.value.identity.None? then None
    else Some(Binding(alias, loaded.value.client, loaded.value.identity.value))
  }

  function Borrow(m: Manager, d: Disk, binding: Binding, now: nat): Option<Credential> {
    var loaded := Load(m, d, binding.alias);
    if loaded.None? || !Accepted(m, d, binding.alias) then None
    else if loaded.value.client != binding.client || loaded.value.identity != Some(binding.identity) then None
    else if loaded.value.credential.None? || !m.lends(loaded.value.credential.value) then None
    else if loaded.value.credential.value.expiresAt.Some? && loaded.value.credential.value.expiresAt.value <= now
       then None
    else loaded.value.credential
  }
}
