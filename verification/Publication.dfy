/** What the marker protocol of the store guarantees: for one call, and over every run with faults and power losses. */
module Publication {
  import opened Prelude
  import opened Storage
  import opened Records
  import opened Store

  // ---- The shape of one write ----

  /** One document file went unchanged, or gained or became `next`; every other document file is untouched. */
  ghost predicate Replaces(d: Disk, d': Disk, next: Document) {
    && (forall p :: p != next.provider ==> d'.DocumentFile(p) == d.DocumentFile(p))
    && (d'.DocumentFile(next.provider) == d.DocumentFile(next.provider)
        || d'.DocumentFile(next.provider) == File(d.DocumentFile(next.provider).Versions(), next)
        || d'.DocumentFile(next.provider) == File([], next))
  }

  ghost predicate SameDocuments(d: Disk, d': Disk) {
    forall p :: d'.DocumentFile(p) == d.DocumentFile(p)
  }

  lemma BracketReplaces(d: Disk, slot: Slot, document: Document, obstacle: Option<Error>, io: Io)
    ensures var d' := d.Bracket(slot, document, obstacle, io).disk;
            Replaces(d, d', Bump(document)) && forall s :: s != slot ==> d'.MarkerFile(s) == d.MarkerFile(s)
  {
  }

  lemma BracketArms(d: Disk, slot: Slot, document: Document, obstacle: Option<Error>, io: Io)
    ensures var d' := d.Bracket(slot, document, obstacle, io).disk;
            SameDocuments(d, d')
            || (obstacle.None? && (d'.Armed(slot) || d'.DocumentFile(document.provider) == File([], Bump(document))))
  {
  }

  /**
   One bracketed replacement: at most the new document is added, no other marker
   moves, and documents change only under a set marker or for good.
   */
  lemma BracketShape(d: Disk, slot: Slot, document: Document, obstacle: Option<Error>, io: Io)
    ensures var d' := d.Bracket(slot, document, obstacle, io).disk;
            && Replaces(d, d', Bump(document))
            && (forall s :: s != slot ==> d'.MarkerFile(s) == d.MarkerFile(s))
            && (SameDocuments(d, d')
                || (obstacle.None? && (d'.Armed(slot)
                  || d'.DocumentFile(document.provider) == File([], Bump(document)))))
  {
    hide Disk.Bracket;
    BracketReplaces(d, slot, document, obstacle, io);
    BracketArms(d, slot, document, obstacle, io);
  }

  /**
   `Done` leaves only the new document and a clear marker; an error that claims
   nothing happened leaves every document and every recovery flag as they read.
   */
  lemma BracketHonest(d: Disk, slot: Slot, document: Document, obstacle: Option<Error>, io: Io)
    requires slot.provider == document.provider
    ensures var r := d.Bracket(slot, document, obstacle, io);
            && (r.outcome == Done ==>
                  r.disk.DocumentFile(slot.provider) == File([], Bump(document))
                    && r.disk.MarkerFile(slot) == File([], Clear))
            && (r.outcome.Failed? && r.outcome.error != PersistenceUncertain ==>
                  SameDocuments(d, r.disk) && r.disk.Recovery(slot) == d.Recovery(slot))
  {
  }

  /** What reads as settled afterwards is the new document, or an old one that already read as settled. */
  lemma BracketReads(d: Disk, slot: Slot, document: Document, obstacle: Option<Error>, io: Io)
    requires slot.provider == document.provider
    ensures var d' := d.Bracket(slot, document, obstacle, io).disk;
            && (d'.Current(slot.provider) == d.Current(slot.provider) || d'.Current(slot.provider) == Bump(document))
            && (!d'.Recovery(slot) ==>
                  d'.Current(slot.provider) == Bump(document)
                  || (d'.Current(slot.provider) == d.Current(slot.provider) && !d.Recovery(slot)))
  {
  }

  /** An armed marker stays armed until the new document is the only one that can survive. */
  lemma BracketStaysArmed(d: Disk, slot: Slot, document: Document, obstacle: Option<Error>, io: Io)
    requires d.Armed(slot)
    ensures var d' := d.Bracket(slot, document, obstacle, io).disk;
            d'.Armed(slot) || d'.DocumentFile(document.provider) == File([], Bump(document))
  {
    assert d.MarkerFile(slot).visible in d.MarkerFile(slot).Versions();
  }

  // ---- One publication ----

  /** The document that a publication of `record` tries to install. */
  function Successor(d: Disk, provider: string, alias: string, record: Record): Document {
    Bump(d.Current(provider).Put(alias, record))
  }

  /** Only the published slot of the successor differs from what is visible now. */
  lemma SuccessorReads(d: Disk, provider: string, alias: string, record: Record)
    ensures var next := Successor(d, provider, alias, record);
            && next.provider == d.Current(provider).provider
            && next.Get(record.Partition(), alias) == Some(record)
            && forall part, a :: part != record.Partition() || a != alias ==>
                 next.Get(part, a) == d.Current(provider).Get(part, a)
  {
    var document := d.Current(provider).Put(alias, record);
    assert forall part, a :: Bump(document).Get(part, a) == document.Get(part, a);
  }

  /** In a sound disk every file holds its own provider's documents. */
  lemma CurrentProvider(d: Disk, provider: string)
    requires d.Sound()
    ensures d.Current(provider).provider == provider
  {
    assert d.SoundFile(provider);
    assert d.Current(provider) in d.DocumentFile(provider).Versions();
  }

  /** A publication that gets past its checks is a bracketed replacement by the successor, which is valid. */
  lemma PublishIsBracket(d: Disk, codec: Codec, provider: string, alias: string, record: Record, io: Io)
    requires d.Refusal(codec, provider, alias, record, io).None?
    ensures exists obstacle ::
              && d.Publish(codec, provider, alias, record, io)
                 == d.Bracket(Slot(provider, record.Partition(), alias),
                   d.Current(provider).Put(alias, record), obstacle, io)
              && (obstacle.None? ==> Successor(d, provider, alias, record).Valid(d.Current(provider).provider))
  {
    var slot := Slot(provider, record.Partition(), alias);
    var document := d.Current(provider).Put(alias, record);
    var obstacle := d.WriteMarker(slot, Pending, io.arm).Obstacle(codec, document, io.listing);
    assert d.Publish(codec, provider, alias, record, io) == d.Bracket(slot, document, obstacle, io);
  }

  lemma PublishShape(d: Disk, codec: Codec, provider: string, alias: string, record: Record, io: Io)
    requires d.Sound()
    ensures var d' := d.Publish(codec, provider, alias, record, io).disk;
            && Replaces(d, d', Successor(d, provider, alias, record))
            && (forall s :: s != Slot(provider, record.Partition(), alias) ==> d'.MarkerFile(s) == d.MarkerFile(s))
            && (SameDocuments(d, d')
                || (Successor(d, provider, alias, record).Valid(provider)
                    && (d'.Armed(Slot(provider, record.Partition(), alias))
                        || d'.DocumentFile(provider) == File([], Successor(d, provider, alias, record)))))
  {
    CurrentProvider(d, provider);
    if d.Refusal(codec, provider, alias, record, io).None? {
      PublishIsBracket(d, codec, provider, alias, record, io);
      var slot, document := Slot(provider, record.Partition(), alias), d.Current(provider).Put(alias, record);
      var obstacle :|
        && d.Publish(codec, provider, alias, record, io) == d.Bracket(slot, document, obstacle, io)
        && (obstacle.None? ==> Successor(d, provider, alias, record).Valid(d.Current(provider).provider));
      BracketShape(d, slot, document, obstacle, io);
    }
  }

  /**
   `Done` means that only the new record can survive and that it is readable;
   any error other than uncertainty means that every document is untouched and
   every recovery flag reads as before; no outcome touches another slot.
   */
  lemma PublishHonest(d: Disk, codec: Codec, provider: string, alias: string, record: Record, io: Io)
    requires d.Sound()
    ensures var slot := Slot(provider, record.Partition(), alias);
            var r := d.Publish(codec, provider, alias, record, io);
            && (r.outcome == Done ==>
                  && r.disk.Visible(slot) == Some(record)
                  && r.disk.DocumentFile(provider) == File([], Successor(d, provider, alias, record))
                  && r.disk.MarkerFile(slot) == File([], Clear))
            && (r.outcome.Failed? && r.outcome.error != PersistenceUncertain ==>
                  && SameDocuments(d, r.disk)
                  && forall s :: r.disk.Recovery(s) == d.Recovery(s))
            && (forall s :: s != slot ==> r.disk.Visible(s) == d.Visible(s) && r.disk.Recovery(s) == d.Recovery(s))
  {
    hide Disk.Bracket, Disk.Obstacle, Document.Valid;
    CurrentProvider(d, provider);
    PublishShape(d, codec, provider, alias, record, io);
    SuccessorReads(d, provider, alias, record);
    if d.Refusal(codec, provider, alias, record, io).None? {
      PublishIsBracket(d, codec, provider, alias, record, io);
      var slot, document := Slot(provider, record.Partition(), alias), d.Current(provider).Put(alias, record);
      var obstacle :| d.Publish(codec, provider, alias, record, io) == d.Bracket(slot, document, obstacle, io);
      BracketHonest(d, slot, document, obstacle, io);
    }
  }

  /**
   A reader never sees a half-published record without the recovery flag: what
   reads as settled afterwards is the new record, or the old one that already
   read as settled.
   */
  lemma PublishReads(d: Disk, codec: Codec, provider: string, alias: string, record: Record, io: Io)
    requires d.Sound()
    ensures var slot := Slot(provider, record.Partition(), alias);
            var d' := d.Publish(codec, provider, alias, record, io).disk;
            && (d'.Visible(slot) == d.Visible(slot) || d'.Visible(slot) == Some(record))
            && (!d'.Recovery(slot) ==>
                  d'.Visible(slot) == Some(record) || (d'.Visible(slot) == d.Visible(slot) && !d.Recovery(slot)))
  {
    CurrentProvider(d, provider);
    SuccessorReads(d, provider, alias, record);
    if d.Refusal(codec, provider, alias, record, io).None? {
      PublishIsBracket(d, codec, provider, alias, record, io);
      var slot, document := Slot(provider, record.Partition(), alias), d.Current(provider).Put(alias, record);
      var obstacle :| d.Publish(codec, provider, alias, record, io) == d.Bracket(slot, document, obstacle, io);
      BracketReads(d, slot, document, obstacle, io);
    }
  }

  // ---- Soundness of one action ----

  lemma FilesStaySound(d: Disk, d': Disk, next: Document)
    requires d.Sound() && Replaces(d, d', next)
    requires SameDocuments(d, d') || (next.Valid(next.provider) && next.revision > 0)
    ensures forall p :: d'.SoundFile(p)
  {
    forall p ensures d'.SoundFile(p) {
      assert d.SoundFile(p);
    }
  }

  /** A slot stays sound when the new document keeps its record. */
  lemma UnwrittenSlotStaysSound(d: Disk, d': Disk, next: Document, slot: Slot)
    requires d.SoundSlot(slot) && Replaces(d, d', next)
    requires slot.provider == next.provider ==> next.Get(slot.partition, slot.alias) == d.Visible(slot)
    requires d'.MarkerFile(slot) == d.MarkerFile(slot)
    ensures d'.SoundSlot(slot)
  {
    if d.Agreed(slot) {
      assert d'.Agreed(slot);
    } else {
      assert d'.Armed(slot);
    }
  }

  /** The written slot is sound if its marker is armed, or the new document is durable. */
  lemma WrittenSlotStaysSound(d: Disk, d': Disk, next: Document, slot: Slot)
    requires Replaces(d, d', next) && slot.provider == next.provider
    requires next.Get(slot.partition, slot.alias).Some? && d.SoundSlot(slot)
    requires d'.Armed(slot) || d'.DocumentFile(next.provider) == File([], next)
    ensures d'.SoundSlot(slot)
  {
    assert d'.Kept(slot);
  }

  /** A marker may be rewritten at will in a slot whose versions agree, and only be armed in another. */
  lemma SameDocumentsStaySound(d: Disk, d': Disk, slot: Slot)
    requires d.SoundSlot(slot) && SameDocuments(d, d')
    requires d.Agreed(slot) || d'.Armed(slot)
    ensures d'.SoundSlot(slot)
  {
    assert d'.Kept(slot);
    if d.Agreed(slot) {
      assert d'.Agreed(slot);
    }
  }

  lemma PublishKeepsSound(d: Disk, codec: Codec, provider: string, alias: string, record: Record, io: Io)
    requires d.Sound()
    ensures d.Publish(codec, provider, alias, record, io).disk.Sound()
  {
    if d.Refusal(codec, provider, alias, record, io).None? {
      var d' := d.Publish(codec, provider, alias, record, io).disk;
      var next := Successor(d, provider, alias, record);
      var target, document := Slot(provider, record.Partition(), alias), d.Current(provider).Put(alias, record);
      CurrentProvider(d, provider);
      SuccessorReads(d, provider, alias, record);
      PublishShape(d, codec, provider, alias, record, io);
      FilesStaySound(d, d', next);
      forall slot: Slot ensures d'.SoundSlot(slot) {
        assert d.SoundSlot(slot);
        if slot != target {
          UnwrittenSlotStaysSound(d, d', next, slot);
        } else {
          PublishIsBracket(d, codec, provider, alias, record, io);
          var obstacle :| d.Publish(codec, provider, alias, record, io) == d.Bracket(slot, document, obstacle, io);
          if d.Armed(slot) {
            BracketStaysArmed(d, slot, document, obstacle, io);
          }
          if d'.Armed(slot) || d'.DocumentFile(provider) == File([], next) {
            WrittenSlotStaysSound(d, d', next, slot);
          } else {
            SameDocumentsStaySound(d, d', slot);
          }
        }
      }
    }
  }

  /** The document file gained at most a version with the same records; nothing else changed. */
  ghost predicate Restates(d: Disk, d': Disk, provider: string) {
    && d'.markers == d.markers
    && exists next: Document :: Replaces(d, d', next) && next.provider == provider
         && next.oauth == d.Current(provider).oauth && next.keys == d.Current(provider).keys
  }

  /**
   A writer that changes no record needs no marker: replacing the document in
   one write keeps every slot sound whatever the write does.
   */
  lemma UnmarkedKeepsSound(d: Disk, codec: Codec, document: Document, listing: bool, commit: Fault)
    requires d.Sound()
    requires document.oauth == d.Current(document.provider).oauth && document.keys == d.Current(document.provider).keys
    ensures var d' := d.PublishDocument(codec, document, listing, commit).disk;
            && d'.Sound()
            && (forall s :: d'.Visible(s) == d.Visible(s))
            && Restates(d, d', document.provider)
  {
    var d' := d.PublishDocument(codec, document, listing, commit).disk;
    var next := Bump(document);
    assert Replaces(d, d', next);
    if d.Obstacle(codec, document, listing).None? {
      assert next.Valid(next.provider);
      FilesStaySound(d, d', next);
      forall s: Slot ensures d'.SoundSlot(s) && d'.Visible(s) == d.Visible(s) {
        assert d.SoundSlot(s);
        UnwrittenSlotStaysSound(d, d', next, s);
      }
    }
  }

  /**
   `clear_unpublished` may disarm: records are never deleted, so a slot that
   reads as empty is empty in every version.
   */
  lemma ClearKeepsSound(d: Disk, slot: Slot, io: Io)
    requires d.Sound()
    ensures var d' := d.ClearUnpublished(slot, io).disk;
            && d'.Sound()
            && d'.documents == d.documents
            && (forall s :: s != slot ==> d'.MarkerFile(s) == d.MarkerFile(s))
            && (d'.MarkerFile(slot) != d.MarkerFile(slot) ==>
                  forall v :: v in d'.DocumentFile(slot.provider).Versions() ==>
                    v.Get(slot.partition, slot.alias).None?)
  {
    var d' := d.ClearUnpublished(slot, io).disk;
    assert d.SoundSlot(slot);
    forall s: Slot ensures d'.SoundSlot(s) {
      assert d.SoundSlot(s);
      if d'.MarkerFile(s) == d.MarkerFile(s) && d.Armed(s) {
        assert d'.Armed(s);
      }
      SameDocumentsStaySound(d, d', s);
    }
    forall p ensures d'.SoundFile(p) {
      assert d.SoundFile(p);
    }
  }

  lemma LossKeepsAVersion(d: Disk, pick: Pick, p: string)
    ensures forall v :: v in d.PowerLoss(pick).DocumentFile(p).Versions() ==> v in d.DocumentFile(p).Versions()
  {
    var after := d.PowerLoss(pick).DocumentFile(p);
    assert after.Durable() && after.visible in d.DocumentFile(p).Versions();
    assert after.Versions() == [after.visible];
  }

  /** A loss of power keeps the disk sound, and cannot change a record that does not read as in recovery. */
  lemma PowerLossIsHarmless(d: Disk, pick: Pick)
    requires d.Sound()
    ensures var d' := d.PowerLoss(pick);
            && d'.Sound()
            && forall s :: !d.Recovery(s) ==> d'.Visible(s) == d.Visible(s)
  {
    var d' := d.PowerLoss(pick);
    assert forall p :: d'.DocumentFile(p).Durable() && d'.Current(p) in d.DocumentFile(p).Versions();
    forall s: Slot ensures d'.SoundSlot(s) && (!d.Recovery(s) ==> d'.Visible(s) == d.Visible(s)) {
      assert d.SoundSlot(s);
      assert d.MarkerFile(s).visible in d.MarkerFile(s).Versions();
      assert d'.MarkerFile(s).visible in d.MarkerFile(s).Versions();
    }
    forall p ensures d'.SoundFile(p) {
      assert d.SoundFile(p);
    }
  }
}
