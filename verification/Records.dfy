/** The records of `model.rs`, `api_key.rs` and `pool.rs`, and the provider document that holds them. */
module Records {
  import opened Prelude

  // ---- Names ----

  predicate Alphanumeric(c: char) { '0' <= c <= '9' || 'a' <= c <= 'z' || 'A' <= c <= 'Z' }

  predicate Graphic(c: char) { '!' <= c <= '~' }

  predicate ValidAlias(name: string) {
    0 < |name| <= 64 && forall i :: 0 <= i < |name| ==> Alphanumeric(name[i]) || name[i] == '-' || name[i] == '_'
  }

  predicate ValidProfile(name: string) {
    ValidAlias(name) && forall i :: 0 <= i < |name| ==> !('A' <= name[i] <= 'Z')
  }

  predicate ValidClient(name: string) {
    0 < |name| <= 256 && forall i :: 0 <= i < |name| ==> Graphic(name[i])
  }

  predicate HexDigit(c: char) { '0' <= c <= '9' || 'a' <= c <= 'f' || 'A' <= c <= 'F' }

  predicate TicketId(id: string) {
    |id| == 32 && forall i :: 0 <= i < 32 ==> HexDigit(id[i])
  }

  predicate KeyId(id: string) {
    |id| == 32 && forall i :: 0 <= i < 32 ==> HexDigit(id[i]) && !('A' <= id[i] <= 'F')
  }

  // ---- Authorization accounts ----

  /** Principals are compared only; their spelling rules are the driver's. */
  datatype Identity = Identity(subject: string, scope: Option<string>)

  /**
   `serial` numbers the answers of the authority that a transaction took up, so
   it names one issued credential; `refresh` is the refresh token it carries,
   which several credentials may share.
   */
  datatype Credential = Credential(serial: nat, refresh: Option<nat>, expiresAt: Option<nat>) {
    predicate Valid() { expiresAt.Some? ==> expiresAt.value > 0 }
  }

  datatype AccountState = Active | SignedOut | NeedsReauthorization

  datatype Account = Account(
    profile: string,
    alias: string,
    client: string,
    identity: Option<Identity>,
    revision: nat,
    generation: nat,
    attempt: Option<string>,
    state: AccountState,
    credential: Option<Credential>,
    pending: Option<Credential>)
  {
    /** `advance`: refused, as a storage error, when the counter is exhausted. */
    function Advance(): Option<Account> {
      if revision < MAX_U64 then Some(this.(revision := revision + 1)) else None
    }

    /** `replace_credential` */
    function Replace(next: Option<Credential>): Option<Account> {
      if generation < MAX_U64 then Some(this.(generation := generation + 1, credential := next)) else None
    }

    predicate Valid(profile: string, alias: string) {
      && this.profile == profile && this.alias == alias
      && ValidProfile(profile) && ValidAlias(alias) && ValidClient(client)
      && (pending.Some? ==>
            pending.value.Valid() && identity.Some? && state == NeedsReauthorization
              && credential.None? && attempt.None?)
      && (attempt.Some? ==> TicketId(attempt.value))
      && match state
         case Active => credential.Some? && credential.value.Valid() && identity.Some? && generation > 0
         case _ => credential.None?
    }
  }

  function NewAccount(profile: string, alias: string, client: string): Account {
    Account(profile, alias, client, None, 0, 0, None, SignedOut, None, None)
  }

  /** What a reader makes of a record whose publication is in doubt. */
  function Quarantine(account: Account): Account {
    account.(credential := None, pending := None, state := NeedsReauthorization, attempt := None)
  }

  // ---- Operator keys ----

  datatype KeyState = Enabled | Disabled | Removed

  datatype Key = Key(
    domain: string,
    alias: string,
    recordId: string,
    epoch: string,
    revision: nat,
    generation: nat,
    state: KeyState,
    secret: Option<string>)
  {
    /** `KeyRecord::advance`; `newEpoch` is the random epoch. */
    function Advance(material: bool, newEpoch: string): Option<Key> {
      if revision < MAX_U64 && (material ==> generation < MAX_U64) then
        Some(this.(revision := revision + 1,
                   generation := if material then generation + 1 else generation,
                   epoch := newEpoch))
      else None
    }

    predicate Valid(domain: string, alias: string) {
      && this.domain == domain && this.alias == alias
      && ValidProfile(domain) && ValidAlias(alias)
      && KeyId(recordId) && KeyId(epoch)
      && 1 <= generation <= revision
      && (state == Removed <==> secret.None?)
    }
  }

  // ---- Pools ----

  datatype Member = KeyMember(alias: string) | AccountMember(profile: string, alias: string)

  datatype Pool = Pool(members: seq<Member>, fallback: bool, maxAttempts: nat) {
    predicate Valid() {
      && 1 <= |members| <= 64
      && 1 <= maxAttempts <= 64
      && ((exists i :: 0 <= i < |members| && members[i].AccountMember? && members[i].profile == "siwc") ==>
            |members| == 1 && !fallback && maxAttempts == 1)
      && (forall i, j :: 0 <= i < j < |members| ==> members[i] != members[j])
      && forall i :: 0 <= i < |members| ==>
           ValidAlias(members[i].alias) && (members[i].AccountMember? ==> ValidProfile(members[i].profile))
    }
  }

  datatype PoolStatus = PoolStatus(revision: nat, config: Pool)

  // ---- Documents ----

  datatype Partition = OAuth | ApiKey

  datatype Record = AccountRecord(account: Account) | KeyRecord(key: Key) {
    function Partition(): Partition { if AccountRecord? then OAuth else ApiKey }

    /** `StoredDocument::validate_binding` */
    predicate Valid(provider: string, alias: string) {
      match this
      case AccountRecord(a) => a.Valid(provider, alias)
      case KeyRecord(k) => k.Valid(provider, alias)
    }
  }

  const RECORDS: nat := 64

  predicate ValidAccounts(provider: string, accounts: map<string, Account>) {
    |accounts| <= RECORDS && forall a :: a in accounts ==> accounts[a].Valid(provider, a)
  }

  predicate ValidKeys(provider: string, keys: map<string, Key>) {
    |keys| <= RECORDS && forall a :: a in keys ==> keys[a].Valid(provider, a)
  }

  predicate ValidPools(pools: map<string, PoolStatus>) {
    |pools| <= RECORDS
    && forall n :: n in pools ==> ValidAlias(n) && pools[n].revision > 0 && pools[n].config.Valid()
  }

  /** `valid_host_id`: a random UUID (version 4) with its prefix. */
  predicate ValidHostId(id: string) {
    && |id| == 45 && id[..9] == "urn:uuid:"
    && (forall i :: 9 <= i < 45 ==> if i in {17, 22, 27, 32} then id[i] == '-' else HexDigit(id[i]))
    && id[23] == '4' && id[28] in {'8', '9', 'a', 'b'}
  }

  /** One document per provider. Revision 0 is the document of a provider that has no file yet. */
  datatype Document = Document(
    provider: string,
    hostId: Option<string>,
    revision: nat,
    oauth: map<string, Account>,
    keys: map<string, Key>,
    pools: map<string, PoolStatus>)
  {
    function Get(partition: Partition, alias: string): Option<Record> {
      match partition
      case OAuth => if alias in oauth then Some(AccountRecord(oauth[alias])) else None
      case ApiKey => if alias in keys then Some(KeyRecord(keys[alias])) else None
    }

    function Put(alias: string, record: Record): (next: Document)
      ensures next.Get(record.Partition(), alias) == Some(record)
      ensures forall p, a :: p != record.Partition() || a != alias ==> next.Get(p, a) == Get(p, a)
      ensures next.pools == pools && next.hostId == hostId
    {
      match record
      case AccountRecord(a) => this.(oauth := oauth[alias := a])
      case KeyRecord(k) => this.(keys := keys[alias := k])
    }

    function Aliases(partition: Partition): set<string> {
      match partition case OAuth => oauth.Keys case ApiKey => keys.Keys
    }

    function Count(partition: Partition): nat {
      match partition case OAuth => |oauth| case ApiKey => |keys|
    }

    predicate Valid(provider: string) {
      && ValidProfile(provider) && this.provider == provider
      && (hostId.Some? ==> ValidHostId(hostId.value))
      && ValidAccounts(provider, oauth) && ValidKeys(provider, keys) && ValidPools(pools)
    }
  }

  function EmptyDocument(provider: string): Document {
    Document(provider, None, 0, map[], map[], map[])
  }
}
