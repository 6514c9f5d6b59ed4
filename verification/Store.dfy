/**
 The credential store of `store.rs`: one document per provider, and one intent
 marker per record that brackets every replacement of the document.
 */
module Store {
  import opened Prelude
  import opened Storage
  import opened Records

  datatype Mark = Absent | Pending | Clear

  datatype Slot = Slot(provider: string, partition: Partition, alias: string)

  /** Serialized sizes, which the model leaves to the codec. */
  datatype Codec = Codec(recordSize: Record -> nat, documentSize: Document -> nat)

  const RECORD_BYTES: nat := 128 * 1024
  const DOCUMENT_BYTES: nat := 8 * 1024 * 1024

  /** What the file system does during one transaction, and which of the store's fault checkpoints fire. */
  datatype Io = Io(
    readable: bool,
    arm: Fault, armHolds: bool,
    listing: bool,
    commit: Fault, commitHolds: bool,
    disarm: Fault)

  const Faultless := Io(true, Completes, true, true, Completes, true, Completes)

  /** The version a power loss leaves in each file; a file not named here keeps its visible version. */
  datatype Pick = Pick(documents: map<string, nat>, markers: map<Slot, nat>)

  /** The document as `publish_provider_with` writes it. */
  function Bump(document: Document): Document { document.(revision := document.revision + 1) }

  /** How a publication ends once its last marker write was attempted. */
  function AfterDisarm(fault: Fault, intended: Outcome): Outcome {
    match fault
    case Completes => intended
    case Dies(_) => Died
    case _ => Failed(PersistenceUncertain)
  }

  datatype Result = Result(disk: Disk, outcome: Outcome)

  /** What listing the aliases of a provider answers. */
  datatype Listing = Listed(aliases: set<string>) | Unlisted(error: Error)

  datatype Disk = Disk(documents: map<string, File<Document>>, markers: map<Slot, File<Mark>>) {

    // ---- Reading ----

    function DocumentFile(provider: string): File<Document> {
      if provider in documents then documents[provider] else File([], EmptyDocument(provider))
    }

    function MarkerFile(slot: Slot): File<Mark> {
      if slot in markers then markers[slot] else File([], Absent)
    }

    function Current(provider: string): Document { DocumentFile(provider).visible }

    function Visible(slot: Slot): Option<Record> { Current(slot.provider).Get(slot.partition, slot.alias) }

    function Recovery(slot: Slot): bool { MarkerFile(slot).visible == Pending }

    /** `namespaces`: every provider with a document or a marker file. */
    function Namespaces(): set<string> {
      (set p | p in documents && documents[p].visible.revision > 0 :: p)
      + (set s | s in markers && markers[s].visible != Absent :: s.provider)
    }

    /** Why `provider` does not return the document, if it does not. */
    function ReadError(provider: string, io: Io): Option<Error> {
      if !ValidProfile(provider) || provider == "accounts" || provider == "gateway" then Some(InvalidInput)
      else if !io.readable || !Current(provider).Valid(provider) then Some(Error.Storage)
      else None
    }

    /** The marker files of one partition of a provider. */
    function MarkerNames(provider: string, partition: Partition): set<Slot> {
      set s | s in markers && s.provider == provider && s.partition == partition && markers[s].visible != Absent
    }

    function Marked(names: set<Slot>): set<string> { set s | s in names && Recovery(s) :: s.alias }

    /** `aliases`: the published records, and the unpublished ones whose marker is set. */
    function Aliases(provider: string, partition: Partition, io: Io): Listing {
      var names := MarkerNames(provider, partition);
      if ReadError(provider, io).Some? then Unlisted(ReadError(provider, io).value)
      else if !io.listing then Unlisted(Error.Storage)
      else if exists s :: s in names && !ValidAlias(s.alias) then Unlisted(InvalidInput)
      else
        var aliases := Current(provider).Aliases(partition) + Marked(names);
        if |aliases| > RECORDS then Unlisted(PoolFull) else Listed(aliases)
    }

    // ---- Writing ----

    function WriteMarker(slot: Slot, mark: Mark, fault: Fault): Disk {
      this.(markers := markers[slot := Write(MarkerFile(slot), mark, fault)])
    }

    function WriteDocument(document: Document, fault: Fault): Disk {
      this.(documents := documents[document.provider := Write(DocumentFile(document.provider), document, fault)])
    }

    /** The checks of `publish_provider_with` that come before the file is touched. */
    function Obstacle(codec: Codec, document: Document, listing: bool): Option<Error> {
      if !document.Valid(document.provider) then Some(Error.Storage)
      else if document.revision == 0 && !listing then Some(Error.Storage)
      else if document.revision == 0 && |Namespaces()| >= RECORDS then Some(PoolFull)
      else if document.revision >= MAX_U64 then Some(Error.Storage)
      else if codec.documentSize(Bump(document)) > DOCUMENT_BYTES then Some(Error.Storage)
      else None
    }

    function Commit(document: Document, obstacle: Option<Error>, commit: Fault): Result {
      match obstacle
      case Some(error) => Result(this, Failed(error))
      case None => Result(WriteDocument(Bump(document), commit), WriteOutcome(commit))
    }

    /** `publish_provider_with`: replaces the whole document, with no marker of its own. */
    function PublishDocument(codec: Codec, document: Document, listing: bool, commit: Fault): Result {
      Commit(document, Obstacle(codec, document, listing), commit)
    }

    /** The checks of `publish_document` that come before the marker is touched. */
    function Refusal(codec: Codec, provider: string, alias: string, record: Record, io: Io): Option<Error> {
      if !record.Valid(provider, alias) then Some(Error.Storage)
      else if ReadError(provider, io).Some? then ReadError(provider, io)
      else if Current(provider).Get(record.Partition(), alias).None?
         && Current(provider).Count(record.Partition()) >= RECORDS
        then Some(PoolFull)
      else if codec.recordSize(record) > RECORD_BYTES then Some(Error.Storage)
      else None
    }

    /** The marker protocol around one replacement: arm the marker, replace the document, disarm the marker. */
    function Bracket(slot: Slot, document: Document, obstacle: Option<Error>, io: Io): Result {
      var armed := WriteMarker(slot, Pending, io.arm);
      if io.arm != Completes then Result(armed, WriteOutcome(io.arm))
      else if !io.armHolds then Result(armed, Failed(PersistenceUncertain))
      else
        var committed := armed.Commit(document, obstacle, io.commit);
        match committed.outcome
        case Died => committed
        case Failed(error) =>
          if error == Error.Storage && !Recovery(slot) then
            Result(committed.disk.WriteMarker(slot, Clear, io.disarm), AfterDisarm(io.disarm, Failed(Error.Storage)))
          else
            Result(committed.disk, Failed(PersistenceUncertain))
        case Done =>
          if !io.commitHolds then Result(committed.disk, Failed(PersistenceUncertain))
          else Result(committed.disk.WriteMarker(slot, Clear, io.disarm), AfterDisarm(io.disarm, Done))
    }

    /** `publish_document` */
    function Publish(codec: Codec, provider: string, alias: string, record: Record, io: Io): Result {
      match Refusal(codec, provider, alias, record, io)
      case Some(error) => Result(this, Failed(error))
      case None =>
        var slot := Slot(provider, record.Partition(), alias);
        var document := Current(provider).Put(alias, record);
        Bracket(slot, document, WriteMarker(slot, Pending, io.arm).Obstacle(codec, document, io.listing), io)
    }

    /** `clear_unpublished`: drops the marker of a record that was never published. */
    function ClearUnpublished(slot: Slot, io: Io): Result {
      if !ValidAlias(slot.alias) then Result(this, Failed(InvalidInput))
      else if ReadError(slot.provider, io).Some? then Result(this, Failed(ReadError(slot.provider, io).value))
      else if Visible(slot).Some? || !Recovery(slot) then Result(this, Failed(Error.Storage))
      else Result(WriteMarker(slot, Clear, io.disarm), WriteOutcome(io.disarm))
    }

    // ---- Writers of the shared document that use no marker ----

    function EnsureNamespace(codec: Codec, provider: string, io: Io): Result {
      if ReadError(provider, io).Some? then Result(this, Failed(ReadError(provider, io).value))
      else if Current(provider).revision > 0 then Result(this, Done)
      else PublishDocument(codec, Current(provider), io.listing, io.commit)
    }

    function IssueHostId(codec: Codec, provider: string, id: string, io: Io): Result {
      if ReadError(provider, io).Some? then Result(this, Failed(ReadError(provider, io).value))
      else if Current(provider).hostId.Some? then Result(this, Done)
      else PublishDocument(codec, Current(provider).(hostId := Some(id)), io.listing, io.commit)
    }

    /**
     Why a pool cannot refer to this member, if it cannot: there is no such key,
     or `load` fails or finds no account.
     */
    function Unresolved(provider: string, member: Member, refused: map<Member, Error>, io: Io): Option<Error> {
      match member
      case KeyMember(alias) => if alias in Current(provider).keys then None else Some(KeyUnavailable)
      case AccountMember(profile, alias) =>
        if ReadError(profile, io).Some? then ReadError(profile, io)
        else if member in refused then Some(refused[member])
        else if alias in Current(profile).oauth then None
        else Some(LoginRequired)
    }

    /** The error of the first member that does not resolve, if one does not. */
    function Dangling(provider: string, members: seq<Member>, refused: map<Member, Error>, io: Io): Option<Error> {
      if members == [] then None
      else if Unresolved(provider, members[0], refused, io).Some? then Unresolved(provider, members[0], refused, io)
      else Dangling(provider, members[1..], refused, io)
    }

    /**
     `set_pool`: compare-and-set on the revision of one pool. `refused` holds the
     account members that `load` fails on besides, because their marker does not
     read or their driver does not accept them.
     */
    function SetPool(
        codec: Codec, provider: string, binding: string, revision: nat, config: Pool,
        refused: map<Member, Error>, io: Io)
      : Result
    {
      if !ValidProfile(provider) || !ValidAlias(binding) || !config.Valid() then Result(this, Failed(InvalidInput))
      else if ReadError(provider, io).Some? then Result(this, Failed(ReadError(provider, io).value))
      else
        var document := Current(provider);
        var current := if binding in document.pools then document.pools[binding].revision else 0;
        var dangling := Dangling(provider, config.members, refused, io);
        if current != revision then Result(this, Failed(Superseded))
        else if dangling.Some? then Result(this, Failed(dangling.value))
        else if revision >= MAX_U64 then Result(this, Failed(Error.Storage))
        else
          PublishDocument(codec, document.(pools := document.pools[binding := PoolStatus(revision + 1, config)]),
                          io.listing, io.commit)
    }

    // ---- The machine stops ----

    function PowerLoss(pick: Pick): Disk {
      Disk(
        map p | p in documents ::
          Survivor(documents[p], if p in pick.documents then pick.documents[p] else |documents[p].older|),
        map s | s in markers ::
          Survivor(markers[s], if s in pick.markers then pick.markers[s] else |markers[s].older|))
    }

    // ---- Soundness ----

    /** Every version of the document that may survive holds the same record in this slot. */
    ghost predicate Agreed(slot: Slot) {
      forall v :: v in DocumentFile(slot.provider).Versions() ==> v.Get(slot.partition, slot.alias) == Visible(slot)
    }

    /** The marker is set in every version of it that may survive. */
    ghost predicate Armed(slot: Slot) {
      forall m :: m in MarkerFile(slot).Versions() ==> m == Pending
    }

    /** A slot that is filled in some version is filled in the newest one: records are never deleted. */
    ghost predicate Kept(slot: Slot) {
      forall v :: v in DocumentFile(slot.provider).Versions() && Visible(slot).None? ==>
        v.Get(slot.partition, slot.alias).None?
    }

    ghost predicate SoundSlot(slot: Slot) { (Agreed(slot) || Armed(slot)) && Kept(slot) }

    ghost predicate SoundFile(provider: string) {
      forall v :: v in DocumentFile(provider).Versions() ==>
        v == EmptyDocument(provider) || (v.Valid(provider) && v.revision > 0)
    }

    ghost predicate Sound() { (forall s :: SoundSlot(s)) && (forall p :: SoundFile(p)) }
  }

  const EmptyDisk := Disk(map[], map[])
}
