/**
 What each operation of the store answers and leaves behind, from the faults it
 meets and from what reads before it.
 */
module Outcomes {
  import opened Prelude
  import opened Storage
  import opened Records
  import opened Store
  import opened Publication
  import opened StoreRuns

  // ---- Publications ----

  /** What stops the document of this publication before its file is touched, once the marker is set. */
  function Blocked(
      d: Disk, codec: Codec, provider: string, alias: string, record: Record, listing: bool)
    : Option<Error>
  {
    var armed := d.WriteMarker(Slot(provider, record.Partition(), alias), Mark.Pending, Completes);
    armed.Obstacle(codec, d.Current(provider).Put(alias, record), listing)
  }

  /** The document was refused before its file was touched. */
  predicate Refused(blocked: Option<Error>, io: Io) {
    blocked == Some(Error.Storage) || (blocked.None? && io.commit.Refused?)
  }

  predicate Installed(blocked: Option<Error>, io: Io) { blocked.None? && io.commit.Completes? && io.commitHolds }

  /** A write that fails without ending the process. */
  predicate Fails(fault: Fault) { fault.Refused? || fault.Uncertain? }

  /**
   What is refused before anything is touched: an unfit record, a reserved name,
   an unreadable document, a partition that is full, or a record that is too
   large, each under its own error.
   */
  lemma RefusalsAreNamed(d: Disk, codec: Codec, provider: string, alias: string, record: Record, io: Io)
    ensures var slot := Slot(provider, record.Partition(), alias);
            var r := d.Publish(codec, provider, alias, record, io);
            var fit, reserved := record.Valid(provider, alias), provider in {"accounts", "gateway"};
            var readable := io.readable && d.Current(provider).Valid(provider);
            var full := d.Visible(slot).None? && d.Current(provider).Count(record.Partition()) >= RECORDS;
            var large := codec.recordSize(record) > RECORD_BYTES;
            && (d.Refusal(codec, provider, alias, record, io).None? <==>
                  fit && !reserved && readable && !full && !large)
            && (!fit ==> r == Result(d, Failed(Error.Storage)))
            && (fit && reserved ==> r == Result(d, Failed(InvalidInput)))
            && (fit && !reserved && !readable ==> r == Result(d, Failed(Error.Storage)))
            && (fit && !reserved && readable && full ==> r == Result(d, Failed(PoolFull)))
            && (fit && !reserved && readable && !full && large ==> r == Result(d, Failed(Error.Storage)))
  {
    hide Disk.Bracket, Disk.Obstacle, Document.Valid;
  }

  /**
   The answer of a publication, exactly. It is done when every write completes
   and every checkpoint holds. It claims that nothing happened when the marker
   write was refused, or when the document was refused over a record that was
   not in recovery and the marker could be put back. Everything else, short of
   the end of the process, is uncertain.
   */
  lemma PublishAnswers(d: Disk, codec: Codec, provider: string, alias: string, record: Record, io: Io)
    ensures var slot := Slot(provider, record.Partition(), alias);
            var r := d.Publish(codec, provider, alias, record, io);
            var refusal := d.Refusal(codec, provider, alias, record, io);
            var blocked := Blocked(d, codec, provider, alias, record, io.listing);
            var armed := io.arm.Completes? && io.armHolds;
            var restorable := Refused(blocked, io) && !d.Recovery(slot);
            if refusal.Some? then r == Result(d, Failed(refusal.value))
            else
              && (r.outcome == Done <==> armed && Installed(blocked, io) && io.disarm.Completes?)
              && (r.outcome == Failed(Error.Storage) <==>
                    io.arm.Refused? || (armed && restorable && io.disarm.Completes?))
              && (r.outcome == Failed(PersistenceUncertain) <==>
                    || io.arm.Uncertain?
                    || (io.arm.Completes? && !io.armHolds)
                    || (armed && blocked.Some? && blocked != Some(Error.Storage))
                    || (armed && blocked.None? && io.commit.Uncertain?)
                    || (armed && blocked.None? && io.commit.Completes? && !io.commitHolds)
                    || (armed && Refused(blocked, io) && d.Recovery(slot))
                    || (armed && (restorable || Installed(blocked, io)) && Fails(io.disarm)))
              && (r.outcome == Died <==>
                    || io.arm.Dies?
                    || (armed && blocked.None? && io.commit.Dies?)
                    || (armed && (restorable || Installed(blocked, io)) && io.disarm.Dies?))
  {
    hide Disk.Refusal, Disk.Obstacle;
  }

  /** A write of a marker is seen unless it was refused or cut short before the rename. */
  lemma MarkerReads(d: Disk, slot: Slot, mark: Mark, fault: Fault)
    ensures d.WriteMarker(slot, mark, fault).Recovery(slot)
            == if fault in {Completes, Uncertain(true), Dies(true)} then mark == Pending else d.Recovery(slot)
  {
  }

  lemma CommitLeavesMarkers(d: Disk, document: Document, obstacle: Option<Error>, commit: Fault, slot: Slot)
    ensures d.Commit(document, obstacle, commit).disk.Recovery(slot) == d.Recovery(slot)
  {
  }

  lemma BracketLeavesRecovery(d: Disk, slot: Slot, document: Document, obstacle: Option<Error>, io: Io)
    ensures var cleared := io.arm.Completes? && io.armHolds
                           && (Installed(obstacle, io) || (Refused(obstacle, io) && !d.Recovery(slot)))
                           && io.disarm !in {Fault.Refused, Uncertain(false), Dies(false)};
            d.Bracket(slot, document, obstacle, io).disk.Recovery(slot)
            <==> !cleared && (d.Recovery(slot) || io.arm in {Completes, Uncertain(true), Dies(true)})
  {
    hide Disk.WriteMarker, Disk.Recovery, Write;
    MarkerReads(d, slot, Pending, io.arm);
    var committed := d.WriteMarker(slot, Pending, io.arm).Commit(document, obstacle, io.commit).disk;
    CommitLeavesMarkers(d.WriteMarker(slot, Pending, io.arm), document, obstacle, io.commit, slot);
    MarkerReads(committed, slot, Clear, io.disarm);
  }

  /**
   Whether the record reads as in recovery afterwards: exactly when the marker
   was set, before or now, and was not replaced by a clear one since.
   */
  lemma PublishLeavesRecovery(d: Disk, codec: Codec, provider: string, alias: string, record: Record, io: Io)
    requires d.Refusal(codec, provider, alias, record, io).None?
    ensures var slot := Slot(provider, record.Partition(), alias);
            var blocked := Blocked(d, codec, provider, alias, record, io.listing);
            var cleared := io.arm.Completes? && io.armHolds
                           && (Installed(blocked, io) || (Refused(blocked, io) && !d.Recovery(slot)))
                           && io.disarm !in {Fault.Refused, Uncertain(false), Dies(false)};
            d.Publish(codec, provider, alias, record, io).disk.Recovery(slot)
            <==> !cleared && (d.Recovery(slot) || io.arm in {Completes, Uncertain(true), Dies(true)})
  {
    hide Disk.Refusal, Disk.Obstacle, Disk.Bracket;
    var slot, document := Slot(provider, record.Partition(), alias), d.Current(provider).Put(alias, record);
    BracketLeavesRecovery(d, slot, document,
      d.WriteMarker(slot, Mark.Pending, io.arm).Obstacle(codec, document, io.listing), io);
  }

  /** A document that is refused over a settled record leaves the record as it was, and settled. */
  lemma RefusedPublishRestores(d: Disk, codec: Codec, provider: string, alias: string, record: Record, io: Io)
    requires d.Sound() && d.Refusal(codec, provider, alias, record, io).None?
    requires var slot := Slot(provider, record.Partition(), alias);
             !d.Recovery(slot) && io.arm.Completes? && io.armHolds && io.disarm.Completes?
    requires Refused(Blocked(d, codec, provider, alias, record, io.listing), io)
    ensures var slot := Slot(provider, record.Partition(), alias);
            var r := d.Publish(codec, provider, alias, record, io);
            && r.outcome == Failed(Error.Storage)
            && !r.disk.Recovery(slot) && r.disk.Visible(slot) == d.Visible(slot)
            && r.disk.DocumentFile(provider) == d.DocumentFile(provider)
  {
    PublishAnswers(d, codec, provider, alias, record, io);
    PublishHonest(d, codec, provider, alias, record, io);
  }

  // ---- Clearing and listing ----

  /** Clearing succeeds exactly for a legal alias without a record that is in recovery, and then it no longer is. */
  lemma ClearAnswers(d: Disk, slot: Slot, io: Io)
    ensures var r := d.ClearUnpublished(slot, io);
            && (r.outcome == Done <==>
                  && ValidAlias(slot.alias) && d.ReadError(slot.provider, io).None?
                  && d.Visible(slot).None? && d.Recovery(slot) && io.disarm.Completes?)
            && (r.outcome == Done ==> !r.disk.Recovery(slot))
  {
  }

  /** The aliases that are published or in recovery. */
  function Named(d: Disk, provider: string, partition: Partition): set<string> {
    d.Current(provider).Aliases(partition) + d.Marked(d.MarkerNames(provider, partition))
  }

  lemma NamedIsExact(d: Disk, provider: string, partition: Partition, alias: string)
    ensures alias in Named(d, provider, partition)
            <==> d.Visible(Slot(provider, partition, alias)).Some? || d.Recovery(Slot(provider, partition, alias))
  {
    hide Disk.ReadError, Disk.Aliases;
    var slot := Slot(provider, partition, alias);
    if d.Recovery(slot) {
      assert slot in d.MarkerNames(provider, partition);
    }
  }

  /** A listing names exactly the published aliases and those in recovery, and fails exactly on what is no listing. */
  lemma AliasesAreExact(d: Disk, provider: string, partition: Partition, io: Io)
    ensures var listing := d.Aliases(provider, partition, io);
            && (listing.Listed? ==>
                  forall a :: a in listing.aliases <==>
                    d.Visible(Slot(provider, partition, a)).Some? || d.Recovery(Slot(provider, partition, a)))
            && (listing.Unlisted? <==>
                  || d.ReadError(provider, io).Some? || !io.listing
                  || (exists s :: s in d.MarkerNames(provider, partition) && !ValidAlias(s.alias))
                  || |Named(d, provider, partition)| > RECORDS)
            && (d.ReadError(provider, io).Some? ==> listing == Unlisted(d.ReadError(provider, io).value))
  {
    hide Disk.ReadError, ValidAlias, Disk.Visible, Disk.Recovery, Disk.Marked, Disk.MarkerNames, Document.Aliases;
    forall a
      ensures a in Named(d, provider, partition)
              <==> d.Visible(Slot(provider, partition, a)).Some? || d.Recovery(Slot(provider, partition, a))
    {
      NamedIsExact(d, provider, partition, a);
    }
  }

  // ---- Losing power ----

  /** A loss of power may bring back any version of any file, one by one. */
  lemma AnyVersionMayReturn(d: Disk, p: string, v: Document, s: Slot, m: Mark)
    requires v in d.DocumentFile(p).Versions() && m in d.MarkerFile(s).Versions()
    ensures exists pick ::
              d.PowerLoss(pick).DocumentFile(p) == File([], v) && d.PowerLoss(pick).MarkerFile(s) == File([], m)
  {
    var i :| 0 <= i < |d.DocumentFile(p).Versions()| && d.DocumentFile(p).Versions()[i] == v;
    var j :| 0 <= j < |d.MarkerFile(s).Versions()| && d.MarkerFile(s).Versions()[j] == m;
    var pick := Pick(map[p := i], map[s := j]);
    assert d.PowerLoss(pick).DocumentFile(p) == File([], v);
    assert d.PowerLoss(pick).MarkerFile(s) == File([], m);
  }
}
