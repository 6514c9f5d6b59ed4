/**
 What is shared in a provider's document beside its records: pools, which are
 replaced by compare-and-set, the host id, and the limits of the store.
 */
module SharedDocuments {
  import opened Prelude
  import opened Storage
  import opened Records
  import opened Store
  import opened Publication
  import opened StoreRuns

  ghost predicate Leads(codec: Codec, d: Disk, d': Disk) { exists actions :: d' == StoreRuns.Run(d, codec, actions) }

  // ---- One operation ----

  function PoolRevision(document: Document, binding: string): nat {
    if binding in document.pools then document.pools[binding].revision else 0
  }

  /** The document that an action tries to write for this provider, before its revision is counted up. */
  function Written(d: Disk, action: Action, p: string): Option<Document> {
    match action
    case Publish(provider, alias, record, _) => if provider == p then Some(d.Current(p).Put(alias, record)) else None
    case EnsureNamespace(provider, _) => if provider == p then Some(d.Current(p)) else None
    case IssueHostId(provider, id, _) =>
      if provider == p && d.Current(p).hostId.None? then Some(d.Current(p).(hostId := Some(id))) else None
    case SetPool(provider, binding, revision, config, _, _) =>
      if provider == p && PoolRevision(d.Current(p), binding) == revision
        then Some(d.Current(p).(pools := d.Current(p).pools[binding := PoolStatus(revision + 1, config)])) else None
    case _ => None
  }

  /** A document within the limits of the store. */
  predicate Fits(codec: Codec, document: Document) {
    document.revision <= MAX_U64 && codec.documentSize(document) <= DOCUMENT_BYTES
  }

  lemma DocumentVersions(
      d: Disk, codec: Codec, document: Document, listing: bool, commit: Fault, p: string, v: Document)
    requires v in d.PublishDocument(codec, document, listing, commit).disk.DocumentFile(p).Versions()
    ensures v in d.DocumentFile(p).Versions()
            || (p == document.provider && v == Bump(document) && Fits(codec, v)
                && (document.revision == 0 ==> |d.Namespaces()| < RECORDS))
  {
    hide Disk.Namespaces, Document.Valid;
  }

  lemma BracketVersions(
      d: Disk, slot: Slot, document: Document, obstacle: Option<Error>, io: Io, p: string, v: Document)
    requires v in d.Bracket(slot, document, obstacle, io).disk.DocumentFile(p).Versions()
    ensures v in d.DocumentFile(p).Versions()
            || (p == document.provider && v == Bump(document) && obstacle.None? && io.arm.Completes?)
  {
  }

  /** What the checks before the file let through. */
  lemma Passed(d: Disk, codec: Codec, document: Document, listing: bool)
    requires d.Obstacle(codec, document, listing).None?
    ensures Fits(codec, Bump(document)) && (document.revision == 0 ==> |d.Namespaces()| < RECORDS)
  {
    hide Disk.Namespaces, Document.Valid;
  }

  function Armed(d: Disk, slot: Slot): Disk { d.WriteMarker(slot, Mark.Pending, Completes) }

  lemma PublishVersions(
      d: Disk, codec: Codec, provider: string, alias: string, record: Record, io: Io, p: string, v: Document)
    requires d.Sound() && v in d.Publish(codec, provider, alias, record, io).disk.DocumentFile(p).Versions()
    ensures v in d.DocumentFile(p).Versions()
            || (p == provider && v == Bump(d.Current(p).Put(alias, record)) && Fits(codec, v)
                && codec.recordSize(record) <= RECORD_BYTES
                && (v.revision == 1 ==> |Armed(d, Slot(p, record.Partition(), alias)).Namespaces()| < RECORDS))
  {
    hide Disk.Namespaces, Document.Valid, Record.Valid, Disk.Sound, Disk.Bracket, Disk.Obstacle, Fits;
    if v !in d.DocumentFile(p).Versions() {
      CurrentProvider(d, provider);
      var slot, document := Slot(provider, record.Partition(), alias), d.Current(provider).Put(alias, record);
      var armed := d.WriteMarker(slot, Mark.Pending, io.arm);
      var obstacle := armed.Obstacle(codec, document, io.listing);
      BracketVersions(d, slot, document, obstacle, io, p, v);
      Passed(armed, codec, document, io.listing);
    }
  }

  lemma EnsureVersions(d: Disk, codec: Codec, provider: string, io: Io, p: string, v: Document)
    requires d.Sound() && v in d.EnsureNamespace(codec, provider, io).disk.DocumentFile(p).Versions()
    ensures v in d.DocumentFile(p).Versions() || (p == provider && v == Bump(d.Current(p)) && Fits(codec, v))
  {
    hide Disk.PublishDocument, Disk.Sound, Fits, Disk.ReadError;
    CurrentProvider(d, provider);
    if v !in d.DocumentFile(p).Versions() {
      DocumentVersions(d, codec, d.Current(provider), io.listing, io.commit, p, v);
    }
  }

  lemma HostVersions(d: Disk, codec: Codec, provider: string, id: string, io: Io, p: string, v: Document)
    requires d.Sound() && v in d.IssueHostId(codec, provider, id, io).disk.DocumentFile(p).Versions()
    ensures v in d.DocumentFile(p).Versions()
            || (p == provider && d.Current(p).hostId.None?
                && v == Bump(d.Current(p).(hostId := Some(id))) && Fits(codec, v))
  {
    hide Disk.PublishDocument, Disk.Sound, Fits, Disk.ReadError;
    CurrentProvider(d, provider);
    if v !in d.DocumentFile(p).Versions() {
      DocumentVersions(d, codec, d.Current(provider).(hostId := Some(id)), io.listing, io.commit, p, v);
    }
  }

  lemma PoolVersions(
      d: Disk, codec: Codec, provider: string, binding: string, revision: nat, config: Pool,
      refused: map<Member, Error>, io: Io, p: string, v: Document)
    requires d.Sound()
    requires v in d.SetPool(codec, provider, binding, revision, config, refused, io).disk.DocumentFile(p).Versions()
    ensures v in d.DocumentFile(p).Versions()
            || (p == provider && PoolRevision(d.Current(p), binding) == revision && Fits(codec, v)
                && v == Bump(d.Current(p).(pools := d.Current(p).pools[binding := PoolStatus(revision + 1, config)])))
  {
    hide Disk.PublishDocument, Disk.Sound, Fits, Disk.ReadError, Disk.Dangling, Pool.Valid;
    CurrentProvider(d, provider);
    if v !in d.DocumentFile(p).Versions() {
      var next := d.Current(provider).pools[binding := PoolStatus(revision + 1, config)];
      DocumentVersions(d, codec, d.Current(provider).(pools := next), io.listing, io.commit, p, v);
    }
  }

  /** A version that an action leaves was there before, or is the one it writes, within the limits. */
  lemma ActVersions(d: Disk, codec: Codec, action: Action, p: string, v: Document)
    requires d.Sound() && v in Act(d, codec, action).DocumentFile(p).Versions()
    ensures v in d.DocumentFile(p).Versions()
            || (Written(d, action, p).Some? && v == Bump(Written(d, action, p).value) && Fits(codec, v))
  {
    hide Disk.Publish, Disk.EnsureNamespace, Disk.IssueHostId, Disk.SetPool, Disk.PowerLoss, Disk.Sound, Fits, Bump;
    match action {
      case Publish(provider, alias, record, io) => PublishVersions(d, codec, provider, alias, record, io, p, v);
      case EnsureNamespace(provider, io) => EnsureVersions(d, codec, provider, io, p, v);
      case IssueHostId(provider, id, io) => HostVersions(d, codec, provider, id, io, p, v);
      case SetPool(provider, binding, revision, config, refused, io) =>
        PoolVersions(d, codec, provider, binding, revision, config, refused, io, p, v);
      case PowerLoss(pick) => LossKeepsAVersion(d, pick, p);
      case ClearUnpublished(slot, io) =>
    }
  }

  // ---- Pools ----

  /**
   A key member needs its published key; an account member needs a document of
   its profile that reads, an account in it, and `load` to accept that account.
   */
  lemma MembersResolve(d: Disk, provider: string, member: Member, refused: map<Member, Error>, io: Io)
    ensures var error := d.Unresolved(provider, member, refused, io);
            match member
            case KeyMember(alias) =>
              error == if d.Visible(Slot(provider, ApiKey, alias)).Some? then None else Some(KeyUnavailable)
            case AccountMember(profile, alias) =>
              && (error.None? <==>
                    && d.ReadError(profile, io).None? && member !in refused
                    && d.Visible(Slot(profile, OAuth, alias)).Some?)
              && (d.ReadError(profile, io).Some? ==> error == d.ReadError(profile, io))
              && (error.Some? && d.ReadError(profile, io).None? ==>
                    error.value == if member in refused then refused[member] else LoginRequired)
  {
    hide Disk.ReadError;
  }

  /** The members dangle exactly when one of them does not resolve; the error is that of the first. */
  lemma {:induction false} DanglingIsFirst(
      d: Disk, provider: string, members: seq<Member>, refused: map<Member, Error>, io: Io)
    ensures var dangling := d.Dangling(provider, members, refused, io);
            && (dangling.None? <==>
                  forall i :: 0 <= i < |members| ==> d.Unresolved(provider, members[i], refused, io).None?)
            && (dangling.Some? ==>
                  exists i :: 0 <= i < |members| && d.Unresolved(provider, members[i], refused, io) == dangling
                              && forall j :: 0 <= j < i ==> d.Unresolved(provider, members[j], refused, io).None?)
    decreases |members|
  {
    hide Disk.Unresolved;
    if members != [] && d.Unresolved(provider, members[0], refused, io).None? {
      DanglingIsFirst(d, provider, members[1..], refused, io);
      if d.Dangling(provider, members[1..], refused, io).Some? {
        var i :| 0 <= i < |members| - 1
          && d.Unresolved(provider, members[1..][i], refused, io) == d.Dangling(provider, members[1..], refused, io)
          && forall j :: 0 <= j < i ==> d.Unresolved(provider, members[1..][j], refused, io).None?;
        assert members[i + 1] == members[1..][i];
        assert forall j :: 0 < j < i + 1 ==> members[j] == members[1..][j - 1];
      } else {
        assert forall i :: 0 < i < |members| ==> members[i] == members[1..][i - 1];
      }
    }
  }

  /** The pool is what the document holds under this binding. */
  predicate Configured(document: Document, binding: string, revision: nat, config: Pool) {
    binding in document.pools && document.pools[binding] == PoolStatus(revision, config)
  }

  /**
   Compare-and-set: a pool is replaced exactly when the presented revision is the
   current one, every member resolves and the document can be written; then only
   the new configuration, under the next revision, can survive, and the other
   pools are untouched. A stale revision is superseded.
   */
  lemma SetPoolAnswers(
      d: Disk, codec: Codec, provider: string, binding: string, revision: nat, config: Pool,
      refused: map<Member, Error>, io: Io)
    requires d.Sound()
    ensures var document := d.Current(provider);
            var r := d.SetPool(codec, provider, binding, revision, config, refused, io);
            var legal := ValidProfile(provider) && ValidAlias(binding) && config.Valid();
            var resolves := forall i :: 0 <= i < |config.members| ==>
                              d.Unresolved(provider, config.members[i], refused, io).None?;
            var next := document.(pools := document.pools[binding := PoolStatus(revision + 1, config)]);
            && (r.outcome == Done <==>
                  && legal && d.ReadError(provider, io).None? && PoolRevision(document, binding) == revision
                  && resolves && revision < MAX_U64
                  && d.Obstacle(codec, next, io.listing).None? && io.commit.Completes?)
            && (r.outcome == Done ==>
                  var after := r.disk.DocumentFile(provider);
                  && after.Durable() && Configured(after.visible, binding, revision + 1, config)
                  && forall other :: other != binding ==>
                       (other in after.visible.pools <==> other in document.pools)
                       && (other in document.pools ==> after.visible.pools[other] == document.pools[other]))
            && (legal && d.ReadError(provider, io).None? && PoolRevision(document, binding) != revision ==>
                  r == Result(d, Failed(Superseded)))
  {
    hide Disk.Sound, Disk.Unresolved, Disk.Obstacle, Pool.Valid, ValidProfile, ValidAlias, Disk.ReadError;
    CurrentProvider(d, provider);
    DanglingIsFirst(d, provider, config.members, refused, io);
  }

  /** Every version that may survive has moved this pool past the revision. */
  ghost predicate PoolPast(d: Disk, provider: string, binding: string, revision: nat) {
    forall v :: v in d.DocumentFile(provider).Versions() ==> PoolRevision(v, binding) > revision
  }

  lemma ActKeepsPoolPast(d: Disk, codec: Codec, action: Action, provider: string, binding: string, revision: nat)
    requires d.Sound() && PoolPast(d, provider, binding, revision)
    ensures PoolPast(Act(d, codec, action), provider, binding, revision)
  {
    hide Act, Disk.Sound, Fits;
    assert d.Current(provider) in d.DocumentFile(provider).Versions();
    forall v | v in Act(d, codec, action).DocumentFile(provider).Versions()
      ensures PoolRevision(v, binding) > revision {
      ActVersions(d, codec, action, provider, v);
    }
  }

  lemma {:induction false} RunKeepsPoolPast(
      d: Disk, codec: Codec, actions: seq<Action>, provider: string, binding: string, revision: nat)
    requires d.Sound() && PoolPast(d, provider, binding, revision)
    ensures StoreRuns.Run(d, codec, actions).Sound()
    ensures PoolPast(StoreRuns.Run(d, codec, actions), provider, binding, revision)
  {
    if actions != [] {
      var before, last := actions[..|actions| - 1], actions[|actions| - 1];
      RunKeepsPoolPast(d, codec, before, provider, binding, revision);
      ActKeepsSound(StoreRuns.Run(d, codec, before), codec, last);
      ActKeepsPoolPast(StoreRuns.Run(d, codec, before), codec, last, provider, binding, revision);
    }
  }

  /**
   Of all pool configurations that present one revision at most one is ever
   answered as done, in any run and after any loss of power.
   */
  lemma PoolRevisionIsSpent(
      d: Disk, codec: Codec, provider: string, binding: string, revision: nat, config: Pool,
      refused: map<Member, Error>, io: Io, d': Disk, other: Pool, refused': map<Member, Error>, io': Io)
    requires Reachable(codec, d) && d.SetPool(codec, provider, binding, revision, config, refused, io).outcome == Done
    requires Leads(codec, d.SetPool(codec, provider, binding, revision, config, refused, io).disk, d')
    ensures d'.SetPool(codec, provider, binding, revision, other, refused', io').outcome.Failed?
    ensures d'.SetPool(codec, provider, binding, revision, other, refused', io').disk == d'
  {
    hide Disk.Dangling, Disk.Obstacle, Disk.Sound, Pool.Valid, Disk.PublishDocument;
    EveryRunIsSound(codec, d);
    SetPoolAnswers(d, codec, provider, binding, revision, config, refused, io);
    PoolWriter(d, codec, provider, binding, revision, config, refused, io);
    var after := d.SetPool(codec, provider, binding, revision, config, refused, io).disk;
    DurablePoolIsPast(after, provider, binding, revision, config);
    var actions :| d' == StoreRuns.Run(after, codec, actions);
    RunKeepsPoolPast(after, codec, actions, provider, binding, revision);
    assert d'.Current(provider) in d'.DocumentFile(provider).Versions();
  }

  lemma DurablePoolIsPast(d: Disk, provider: string, binding: string, revision: nat, config: Pool)
    requires d.DocumentFile(provider).Durable() && Configured(d.Current(provider), binding, revision + 1, config)
    ensures PoolPast(d, provider, binding, revision)
  {
  }

  // ---- Host ids and namespaces ----

  /** Every version that may survive carries this host id. */
  ghost predicate Hosted(d: Disk, provider: string, id: string) {
    forall v :: v in d.DocumentFile(provider).Versions() ==> v.hostId == Some(id)
  }

  /** A host id is issued once: what is answered is stored for good, and is the one that was there if there was one. */
  lemma IssueHostIdAnswers(d: Disk, codec: Codec, provider: string, id: string, io: Io)
    requires d.Sound() && d.IssueHostId(codec, provider, id, io).outcome == Done
    ensures var d' := d.IssueHostId(codec, provider, id, io).disk;
            && d'.Current(provider).hostId.Some?
            && (d.Current(provider).hostId.Some? ==> d' == d)
            && (d.Current(provider).hostId.None? ==> Hosted(d', provider, id))
  {
    CurrentProvider(d, provider);
  }

  lemma ActKeepsHosted(d: Disk, codec: Codec, action: Action, provider: string, id: string)
    requires d.Sound() && Hosted(d, provider, id)
    ensures Hosted(Act(d, codec, action), provider, id)
  {
    hide Act, Disk.Sound, Fits;
    assert d.Current(provider) in d.DocumentFile(provider).Versions();
    forall v | v in Act(d, codec, action).DocumentFile(provider).Versions() ensures v.hostId == Some(id) {
      ActVersions(d, codec, action, provider, v);
    }
  }

  lemma {:induction false} RunKeepsHosted(d: Disk, codec: Codec, actions: seq<Action>, provider: string, id: string)
    requires d.Sound() && Hosted(d, provider, id)
    ensures StoreRuns.Run(d, codec, actions).Sound() && Hosted(StoreRuns.Run(d, codec, actions), provider, id)
  {
    if actions != [] {
      var before, last := actions[..|actions| - 1], actions[|actions| - 1];
      RunKeepsHosted(d, codec, before, provider, id);
      ActKeepsSound(StoreRuns.Run(d, codec, before), codec, last);
      ActKeepsHosted(StoreRuns.Run(d, codec, before), codec, last, provider, id);
    }
  }

  /** A host id that was newly issued is the provider's host id in every later state. */
  lemma HostIdIsIssuedOnce(d: Disk, codec: Codec, provider: string, id: string, io: Io, d': Disk)
    requires Reachable(codec, d) && d.Current(provider).hostId.None?
    requires d.IssueHostId(codec, provider, id, io).outcome == Done
    requires Leads(codec, d.IssueHostId(codec, provider, id, io).disk, d')
    ensures d'.Current(provider).hostId == Some(id)
  {
    EveryRunIsSound(codec, d);
    IssueHostIdAnswers(d, codec, provider, id, io);
    HostWriter(d, codec, provider, id, io);
    var after := d.IssueHostId(codec, provider, id, io).disk;
    var actions :| d' == StoreRuns.Run(after, codec, actions);
    RunKeepsHosted(after, codec, actions, provider, id);
    assert d'.Current(provider) in d'.DocumentFile(provider).Versions();
  }

  // ---- Limits ----

  /** Every version but the first one was written within the limits, and none is newer than the visible one. */
  ghost predicate Limited(codec: Codec, d: Disk) {
    forall p, v :: v in d.DocumentFile(p).Versions() ==>
      (v == EmptyDocument(p) || Fits(codec, v)) && v.revision <= d.Current(p).revision
  }

  /** The records of every version were within the size limit when they were published. */
  ghost predicate RecordsFit(codec: Codec, d: Disk) {
    forall p, v, part, alias :: v in d.DocumentFile(p).Versions() && v.Get(part, alias).Some? ==>
      codec.recordSize(v.Get(part, alias).value) <= RECORD_BYTES
  }

  /** The providers that have a document. */
  function Holders(d: Disk): set<string> { set p | p in d.documents && d.documents[p].visible.revision > 0 }

  lemma HoldersAreNamespaces(d: Disk, slot: Slot)
    ensures Holders(d) <= d.Namespaces() && Holders(d) <= Armed(d, slot).Namespaces()
  {
  }

  lemma FewerAreFewer(a: set<string>, b: set<string>)
    requires a <= b
    ensures |a| <= |b|
  {
    assert a + (b - a) == b;
  }

  lemma DocumentVisible(d: Disk, codec: Codec, document: Document, listing: bool, commit: Fault, p: string)
    ensures var d' := d.PublishDocument(codec, document, listing, commit).disk;
            d'.DocumentFile(p) == d.DocumentFile(p) || (p == document.provider && d'.Current(p) == Bump(document))
  {
    hide Disk.Obstacle;
  }

  /** Short of a loss of power a file stays as it is, or reads as what is written. */
  lemma ActVisible(d: Disk, codec: Codec, action: Action, p: string)
    requires d.Sound() && !action.PowerLoss?
    ensures var d' := Act(d, codec, action);
            d'.DocumentFile(p) == d.DocumentFile(p)
            || (Written(d, action, p).Some? && d'.Current(p) == Bump(Written(d, action, p).value))
  {
    hide Disk.Publish, Disk.PublishDocument, Disk.Sound, Disk.Dangling, Pool.Valid, Disk.ReadError;
    match action {
      case Publish(provider, alias, record, io) =>
        CurrentProvider(d, provider);
        PublishShape(d, codec, provider, alias, record, io);
      case EnsureNamespace(provider, io) =>
        CurrentProvider(d, provider);
        DocumentVisible(d, codec, d.Current(provider), io.listing, io.commit, p);
      case IssueHostId(provider, id, io) =>
        CurrentProvider(d, provider);
        DocumentVisible(d, codec, d.Current(provider).(hostId := Some(id)), io.listing, io.commit, p);
      case SetPool(provider, binding, revision, config, _, io) =>
        CurrentProvider(d, provider);
        var next := d.Current(provider).pools[binding := PoolStatus(revision + 1, config)];
        DocumentVisible(d, codec, d.Current(provider).(pools := next), io.listing, io.commit, p);
      case ClearUnpublished(_, _) =>
    }
  }

  /** A provider gets a document only while fewer than 64 have one. */
  lemma NewHolderHasRoom(d: Disk, codec: Codec, action: Action, p: string)
    requires d.Sound() && Limited(codec, d) && !action.PowerLoss?
    requires d.Current(p).revision == 0 && Act(d, codec, action).Current(p).revision > 0
    ensures |Holders(d)| < RECORDS
  {
    hide Disk.Publish, Disk.Obstacle, Disk.Sound, Disk.Dangling, Pool.Valid, Holders, Disk.Namespaces, Fits;
    ActVisible(d, codec, action, p);
    ActVersions(d, codec, action, p, Act(d, codec, action).Current(p));
    UnwrittenVersions(d, p);
    var v := Act(d, codec, action).Current(p);
    assert v in Act(d, codec, action).DocumentFile(p).Versions() && v !in d.DocumentFile(p).Versions();
    match action {
      case Publish(provider, alias, record, io) =>
        PublishVersions(d, codec, provider, alias, record, io, p, v);
        HoldersAreNamespaces(d, Slot(p, record.Partition(), alias));
        FewerAreFewer(Holders(d), Armed(d, Slot(p, record.Partition(), alias)).Namespaces());
      case EnsureNamespace(provider, io) =>
        DocumentVersions(d, codec, d.Current(provider), io.listing, io.commit, p, v);
        HoldersAreNamespaces(d, Slot(p, OAuth, ""));
        FewerAreFewer(Holders(d), d.Namespaces());
      case IssueHostId(provider, id, io) =>
        DocumentVersions(d, codec, d.Current(provider).(hostId := Some(id)), io.listing, io.commit, p, v);
        HoldersAreNamespaces(d, Slot(p, OAuth, ""));
        FewerAreFewer(Holders(d), d.Namespaces());
      case SetPool(provider, binding, revision, config, _, io) =>
        var next := d.Current(provider).pools[binding := PoolStatus(revision + 1, config)];
        DocumentVersions(d, codec, d.Current(provider).(pools := next), io.listing, io.commit, p, v);
        HoldersAreNamespaces(d, Slot(p, OAuth, ""));
        FewerAreFewer(Holders(d), d.Namespaces());
      case ClearUnpublished(_, _) =>
    }
  }

  /** Every version of a document that reads as unwritten is unwritten. */
  lemma UnwrittenVersions(d: Disk, p: string)
    requires d.Sound() && d.Current(p).revision == 0
    ensures d.Current(p) == EmptyDocument(p)
  {
    assert d.SoundFile(p) && d.Current(p) in d.DocumentFile(p).Versions();
  }

  ghost predicate WithinLimits(codec: Codec, d: Disk) {
    Limited(codec, d) && RecordsFit(codec, d) && |Holders(d)| <= RECORDS
  }

  lemma ActKeepsLimited(d: Disk, codec: Codec, action: Action)
    requires d.Sound() && Limited(codec, d)
    ensures Limited(codec, Act(d, codec, action))
  {
    hide Act, Disk.Sound, Fits;
    var d' := Act(d, codec, action);
    forall p, v | v in d'.DocumentFile(p).Versions()
      ensures (v == EmptyDocument(p) || Fits(codec, v)) && v.revision <= d'.Current(p).revision
    {
      ActVersions(d, codec, action, p, v);
      if action.PowerLoss? {
        LostIsDurable(d, codec, action, p);
      } else {
        ActVisible(d, codec, action, p);
        WrittenRevision(d, action, p);
      }
    }
  }

  lemma LostIsDurable(d: Disk, codec: Codec, action: Action, p: string)
    requires action.PowerLoss?
    ensures Act(d, codec, action).DocumentFile(p).Durable()
  {
  }

  lemma WrittenRevision(d: Disk, action: Action, p: string)
    ensures Written(d, action, p).Some? ==> Written(d, action, p).value.revision == d.Current(p).revision
  {
  }

  lemma ActKeepsRecordsFit(d: Disk, codec: Codec, action: Action)
    requires d.Sound() && RecordsFit(codec, d)
    ensures RecordsFit(codec, Act(d, codec, action))
  {
    hide Disk.Publish, Disk.Sound, Fits, Disk.EnsureNamespace, Disk.IssueHostId, Disk.SetPool, Disk.PowerLoss,
         Disk.ClearUnpublished;
    forall p, v, part, alias | v in Act(d, codec, action).DocumentFile(p).Versions() && v.Get(part, alias).Some?
      ensures codec.recordSize(v.Get(part, alias).value) <= RECORD_BYTES
    {
      ActVersions(d, codec, action, p, v);
      assert d.Current(p) in d.DocumentFile(p).Versions();
      if action.Publish? {
        PublishVersions(d, codec, action.provider, action.alias, action.record, action.io, p, v);
      }
      if v !in d.DocumentFile(p).Versions() {
        assert v.Get(part, alias) == Written(d, action, p).value.Get(part, alias);
        if !(action.Publish? && part == action.record.Partition() && alias == action.alias) {
          assert v.Get(part, alias) == d.Current(p).Get(part, alias);
        }
      }
    }
  }

  lemma ActKeepsHolders(d: Disk, codec: Codec, action: Action)
    requires d.Sound() && Limited(codec, d) && |Holders(d)| <= RECORDS
    ensures |Holders(Act(d, codec, action))| <= RECORDS
  {
    hide Act, Disk.Sound, Fits;
    var d' := Act(d, codec, action);
    if p :| p in Holders(d') && p !in Holders(d) {
      HolderReads(d', p);
      HolderReads(d, p);
      if action.PowerLoss? {
        ActVersions(d, codec, action, p, d'.Current(p));
      } else {
        NewHolderHasRoom(d, codec, action, p);
        forall q | q in Holders(d') && q != p ensures q in Holders(d) {
          HolderReads(d', q);
          HolderReads(d, q);
          ActVisible(d, codec, action, q);
          ActVisible(d, codec, action, p);
          OneProvider(d, action, p, q);
        }
        FewerAreFewer(Holders(d'), Holders(d) + {p});
      }
    } else {
      FewerAreFewer(Holders(d'), Holders(d));
    }
  }

  lemma HolderReads(d: Disk, p: string)
    ensures p in Holders(d) <==> d.Current(p).revision > 0
    ensures d.Current(p) in d.DocumentFile(p).Versions()
  {
  }

  lemma OneProvider(d: Disk, action: Action, p: string, q: string)
    requires p != q
    ensures Written(d, action, p).None? || Written(d, action, q).None?
  {
  }

  lemma {:induction false} RunKeepsLimits(codec: Codec, actions: seq<Action>)
    ensures WithinLimits(codec, StoreRuns.Run(EmptyDisk, codec, actions))
  {
    if actions == [] {
      EmptyIsWithinLimits(codec);
    } else {
      var before, last := actions[..|actions| - 1], actions[|actions| - 1];
      var d := StoreRuns.Run(EmptyDisk, codec, before);
      RunIsSound(codec, before);
      RunKeepsLimits(codec, before);
      ActKeepsLimited(d, codec, last);
      ActKeepsRecordsFit(d, codec, last);
      ActKeepsHolders(d, codec, last);
    }
  }

  lemma EmptyIsWithinLimits(codec: Codec)
    ensures WithinLimits(codec, EmptyDisk)
  {
    assert Holders(EmptyDisk) == {};
  }

  /**
   In every run: at most 64 providers have a document; every version that may
   survive is within the size of a document and a 64-bit revision, and holds
   only records within the size of a record.
   */
  lemma StoreStaysWithinLimits(codec: Codec, d: Disk)
    requires Reachable(codec, d)
    ensures |Holders(d)| <= RECORDS
    ensures forall p, v :: v in d.DocumentFile(p).Versions() ==> v == EmptyDocument(p) || Fits(codec, v)
    ensures forall p, v, part, alias :: v in d.DocumentFile(p).Versions() && v.Get(part, alias).Some? ==>
              codec.recordSize(v.Get(part, alias).value) <= RECORD_BYTES
  {
    var actions :| d == StoreRuns.Run(EmptyDisk, codec, actions);
    RunKeepsLimits(codec, actions);
  }
}
