/** The store's operations as they run: statements over the two file tables, proved against the disk functions. */
module Directories {
  import opened Prelude
  import opened Storage
  import opened Records
  import opened Store
  import opened Publication
  import opened StoreRuns

  class Directory {
    var documents: map<string, File<Document>>
    var markers: map<Slot, File<Mark>>
    const codec: Codec

    function State(): Disk
      reads this
    {
      Disk(documents, markers)
    }

    constructor (codec: Codec)
      ensures State() == EmptyDisk && State().Sound() && this.codec == codec
    {
      documents, markers := map[], map[];
      this.codec := codec;
      new;
      RunIsSound(codec, []);
    }

    method WriteMarker(slot: Slot, mark: Mark, fault: Fault) returns (r: Outcome)
      modifies this`markers
      ensures State() == old(State()).WriteMarker(slot, mark, fault) && r == WriteOutcome(fault)
    {
      markers := markers[slot := Write(State().MarkerFile(slot), mark, fault)];
      r := WriteOutcome(fault);
    }

    /** `publish_provider_with`. The commit callback's checkpoints are part of `commit`. */
    method ReplaceDocument(document: Document, listing: bool, commit: Fault) returns (r: Outcome)
      modifies this`documents
      ensures Result(State(), r) == old(State()).PublishDocument(codec, document, listing, commit)
    {
      if !document.Valid(document.provider) {
        return Failed(Error.Storage);
      }
      if document.revision == 0 {
        if !listing {
          return Failed(Error.Storage);
        }
        if |State().Namespaces()| >= RECORDS {
          return Failed(PoolFull);
        }
      }
      if document.revision >= MAX_U64 {
        return Failed(Error.Storage);
      }
      var next := document.(revision := document.revision + 1);
      if codec.documentSize(next) > DOCUMENT_BYTES {
        return Failed(Error.Storage);
      }
      documents := documents[next.provider := Write(State().DocumentFile(next.provider), next, commit)];
      r := WriteOutcome(commit);
    }

    /** `publish_document`, step by step; every exit leaves the disk sound. */
    method PublishRecord(provider: string, alias: string, record: Record, io: Io) returns (r: Outcome)
      requires State().Sound()
      modifies this
      ensures Result(State(), r) == old(State()).Publish(codec, provider, alias, record, io)
      ensures State().Sound()
    {
      ghost var d := State();
      PublishKeepsSound(d, codec, provider, alias, record, io);
      var refusal := State().Refusal(codec, provider, alias, record, io);
      if refusal.Some? {
        return Failed(refusal.value);
      }
      var slot := Slot(provider, record.Partition(), alias);
      var document := State().Current(provider).Put(alias, record);
      var beforeRecovery := State().Recovery(slot);
      var armed := WriteMarker(slot, Mark.Pending, io.arm);
      if armed != Done {
        return armed;
      }
      if !io.armHolds {
        return Failed(PersistenceUncertain);
      }
      var result := ReplaceDocument(document, io.listing, io.commit);
      if result == Died {
        return Died;
      }
      if result.Failed? {
        if result.error == Error.Storage && !beforeRecovery {
          var restored := WriteMarker(slot, Mark.Clear, io.disarm);
          return AfterDisarm(io.disarm, Failed(Error.Storage));
        }
        return Failed(PersistenceUncertain);
      }
      if !io.commitHolds {
        return Failed(PersistenceUncertain);
      }
      var cleared := WriteMarker(slot, Mark.Clear, io.disarm);
      return AfterDisarm(io.disarm, Done);
    }

    method ClearUnpublished(slot: Slot, io: Io) returns (r: Outcome)
      requires State().Sound()
      modifies this`markers
      ensures Result(State(), r) == old(State()).ClearUnpublished(slot, io)
      ensures State().Sound()
    {
      ClearKeepsSound(State(), slot, io);
      if !ValidAlias(slot.alias) {
        return Failed(InvalidInput);
      }
      var unread := State().ReadError(slot.provider, io);
      if unread.Some? {
        return Failed(unread.value);
      }
      if State().Visible(slot).Some? || !State().Recovery(slot) {
        return Failed(Error.Storage);
      }
      r := WriteMarker(slot, Mark.Clear, io.disarm);
    }

    /** The loop of `set_pool`: the members are resolved one by one. */
    method Resolve(provider: string, members: seq<Member>, refused: map<Member, Error>, io: Io)
      returns (e: Option<Error>)
      ensures e == State().Dangling(provider, members, refused, io)
    {
      hide Disk.Aliases, Disk.Sound;
      var document := State().Current(provider);
      var i := 0;
      while i < |members|
        invariant 0 <= i <= |members|
        invariant State().Dangling(provider, members, refused, io)
          == State().Dangling(provider, members[i..], refused, io)
      {
        assert members[i..][0] == members[i] && members[i..][1..] == members[i + 1..];
        match members[i] {
          case KeyMember(alias) =>
            if alias !in document.keys {
              return Some(KeyUnavailable);
            }
          case AccountMember(profile, alias) =>
            var unread := State().ReadError(profile, io);
            if unread.Some? {
              return unread;
            }
            if members[i] in refused {
              return Some(refused[members[i]]);
            }
            if alias !in State().Current(profile).oauth {
              return Some(LoginRequired);
            }
        }
        i := i + 1;
      }
      e := None;
    }

    /** `set_pool` */
    method SetPool(provider: string, binding: string, revision: nat, config: Pool, refused: map<Member, Error>, io: Io)
        returns (r: Outcome)
      requires State().Sound()
      modifies this`documents
      ensures Result(State(), r) == old(State()).SetPool(codec, provider, binding, revision, config, refused, io)
      ensures State().Sound() && forall s :: State().Visible(s) == old(State()).Visible(s)
    {
      hide Disk.Sound, Disk.Namespaces, Disk.Obstacle, Disk.Commit, Disk.Dangling;
      PoolWriter(State(), codec, provider, binding, revision, config, refused, io);
      if !ValidProfile(provider) || !ValidAlias(binding) || !config.Valid() {
        return Failed(InvalidInput);
      }
      var unread := State().ReadError(provider, io);
      if unread.Some? {
        return Failed(unread.value);
      }
      var document := State().Current(provider);
      var current := if binding in document.pools then document.pools[binding].revision else 0;
      if current != revision {
        return Failed(Superseded);
      }
      var dangling := Resolve(provider, config.members, refused, io);
      if dangling.Some? {
        return Failed(dangling.value);
      }
      if revision >= MAX_U64 {
        return Failed(Error.Storage);
      }
      r := ReplaceDocument(document.(pools := document.pools[binding := PoolStatus(revision + 1, config)]),
                           io.listing, io.commit);
    }

    /** The walk over the marker files; there is no answer when one has a name that is no alias. */
    method ReadMarkers(all: set<Slot>) returns (r: Option<set<string>>)
      ensures r.None? <==> exists s :: s in all && !ValidAlias(s.alias)
      ensures r.Some? ==> r.value == State().Marked(all)
    {
      hide Disk.Sound, Disk.Namespaces, Disk.ReadError, Disk.Recovery, ValidAlias;
      var names, marked := all, {};
      while names != {}
        invariant names <= all
        invariant forall s :: s in all && s !in names ==> ValidAlias(s.alias)
        invariant marked == State().Marked(all - names)
        decreases |names|
      {
        var name :| name in names;
        if !ValidAlias(name.alias) {
          return None;
        }
        if State().Recovery(name) {
          marked := marked + {name.alias};
        }
        assert all - (names - {name}) == all - names + {name};
        names := names - {name};
      }
      assert all - names == all;
      r := Some(marked);
    }

    method Aliases(provider: string, partition: Partition, io: Io) returns (r: Listing)
      ensures r == State().Aliases(provider, partition, io)
    {
      hide Disk.Sound, Disk.Namespaces, Disk.ReadError, Disk.Marked, Disk.MarkerNames, ValidAlias;
      var unread := State().ReadError(provider, io);
      if unread.Some? {
        return Unlisted(unread.value);
      }
      var aliases := State().Current(provider).Aliases(partition);
      if !io.listing {
        return Unlisted(Error.Storage);
      }
      var marked := ReadMarkers(State().MarkerNames(provider, partition));
      if marked.None? {
        return Unlisted(InvalidInput);
      }
      aliases := aliases + marked.value;
      if |aliases| > RECORDS {
        return Unlisted(PoolFull);
      }
      r := Listed(aliases);
    }
  }
}
