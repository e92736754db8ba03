/** The transactional journal: entries, the journal file and its temporary, and
    the write-then-rename save as a sequence of disk states. */
module Journal {
  import opened Strings
  import opened Paths
  import opened Filesystem

  datatype Kind = Renamed | Copied | Moved

  datatype JournalEntry = JournalEntry(kind: Kind, source: Path, destination: Path, backup: Option<Path>, size: nat)

  /** Batch id and creation time, fixed for the whole batch. */
  datatype Header = Header(batchId: string, createdAt: nat)

  /** Bytes of a journal file: a complete serialisation, or anything less. */
  datatype Blob = Torn | Whole(header: Header, entries: seq<JournalEntry>)

  /** Only synced bytes are certain to survive a crash. */
  datatype JournalFile = JournalFile(blob: Blob, synced: bool)

  /** `older` holds the journals a power loss may bring back, because no directory sync
      has followed the rename that replaced them. */
  datatype Disk = Disk(files: Files, journal: Option<JournalFile>, temp: Option<JournalFile>,
                       older: set<Option<JournalFile>>)

  /** Which call of the save fails, if any. The directory sync at its end is attempted
      once, and its failure is ignored. */
  datatype SaveFate = SaveOk(dirSynced: bool) | DirFails | CreateFails | WriteFails | SyncFails | RenameFails

  function Created(d: Disk): Disk {
    d.(temp := Some(JournalFile(Torn, false)))
  }

  function Written(d: Disk, blob: Blob): Disk {
    d.(temp := Some(JournalFile(blob, false)))
  }

  function Synced(d: Disk): Disk {
    d.(temp := if d.temp.Some? then Some(d.temp.value.(synced := true)) else None)
  }

  /** The rename puts the temporary, whatever it holds, in place of the journal. */
  function Replaced(d: Disk): Disk {
    d.(journal := d.temp, temp := None, older := d.older + {d.journal})
  }

  function Settled(d: Disk): Disk {
    d.(older := {})
  }

  /** The disk states a save goes through, in order; empty when it fails before
      touching the disk. */
  function SaveTrace(d: Disk, blob: Blob, fate: SaveFate): seq<Disk> {
    var created := Created(d);
    var written := Written(created, blob);
    var synced := Synced(written);
    var replaced := Replaced(synced);
    match fate
    case DirFails => []
    case CreateFails => []
    case WriteFails => [created]
    case SyncFails => [created, written]
    case RenameFails => [created, written, synced]
    case SaveOk(dirSynced) =>
      [created, written, synced, replaced] + if dirSynced then [Settled(replaced)] else []
  }

  function AfterSave(d: Disk, blob: Blob, fate: SaveFate): Disk {
    var trace := SaveTrace(d, blob, fate);
    if trace == [] then d else trace[|trace| - 1]
  }

  /** What a reader may find in a file after a crash: unsynced bytes may be lost. */
  predicate ReadableAfterCrash(f: JournalFile, seen: Blob) {
    seen == f.blob || (!f.synced && seen == Torn)
  }

  /** The journals a power loss may leave in place. */
  function AfterPowerLoss(d: Disk): set<Option<JournalFile>> {
    d.older + {d.journal}
  }

  /** At every instant of a save, whichever call fails, the journal is the one from
      before or the complete synced new one, also after a power loss, and the media
      files are untouched. The new one is in place exactly when the save succeeds,
      and alone survives a power loss when the directory sync succeeds as well. */
  lemma SaveIsAtomic(d: Disk, blob: Blob, fate: SaveFate)
    ensures var saved := Some(JournalFile(blob, true));
            forall s | s in SaveTrace(d, blob, fate) ::
              && s.files == d.files && (s.journal == d.journal || s.journal == saved)
              && AfterPowerLoss(s) <= AfterPowerLoss(d) + {s.journal}
    ensures var saved, after := Some(JournalFile(blob, true)), AfterSave(d, blob, fate);
            && after.files == d.files
            && after.journal == (if fate.SaveOk? then saved else d.journal)
            && AfterPowerLoss(after) == (match fate
                                         case SaveOk(true) => {saved}
                                         case SaveOk(false) => AfterPowerLoss(d) + {saved}
                                         case _ => AfterPowerLoss(d))
  {
  }
}
