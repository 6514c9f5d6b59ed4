/** The file-system contract of `storage_fs.rs`: atomic replacement whose durability is not always known. */
module Storage {
  import opened Prelude

  /**
   A file by its versions. Reads return `visible`; after a loss of power the
   file may come back as any of `older` or as `visible`. A durable file has no
   older versions. Versions that background writeback has already retired are
   kept in `older`, which only allows more outcomes of a power loss.
   */
  datatype File<V> = File(older: seq<V>, visible: V) {

    function Versions(): seq<V> { older + [visible] }

    predicate Durable() { older == [] }
  }

  /**
   What the file system does with one `Directory::write`: a refusal (a check or
   the commit callback) comes before replacement, while an uncertain failure or
   the end of the process may come before or after the rename.
   */
  datatype Fault = Completes | Refused | Uncertain(renamed: bool) | Dies(renamed: bool)

  function Write<V>(file: File<V>, contents: V, fault: Fault): (next: File<V>)
    ensures next.visible == file.visible || next.visible == contents
  {
    match fault
    case Completes => File([], contents)
    case Refused => file
    case Uncertain(renamed) => if renamed then File(file.Versions(), contents) else file
    case Dies(renamed) => if renamed then File(file.Versions(), contents) else file
  }

  function WriteOutcome(fault: Fault): Outcome {
    match fault
    case Completes => Done
    case Refused => Failed(Error.Storage)
    case Uncertain(_) => Failed(PersistenceUncertain)
    case Dies(_) => Died
  }

  /** The file after a loss of power that kept version `pick`. */
  function Survivor<V>(file: File<V>, pick: nat): (next: File<V>)
    ensures next.Durable() && next.visible in file.Versions()
  {
    if pick < |file.older| then File([], file.Versions()[pick]) else File([], file.visible)
  }

  /** What may be in the file after a write and a loss of power. */
  ghost predicate MaySurvive<V(!new)>(file: File<V>, v: V) { exists pick :: Survivor(file, pick).visible == v }

  lemma SurvivorsAreVersions<V(!new)>(file: File<V>, v: V)
    ensures MaySurvive(file, v) <==> v in file.Versions()
  {
    if v in file.Versions() {
      var pick :| 0 <= pick < |file.Versions()| && file.Versions()[pick] == v;
      assert Survivor(file, pick).visible == v;
    }
  }

  /**
   A write is atomic through a loss of power: a reported success leaves only the
   new contents, a refusal only what was there before, and after any other end
   exactly the old versions and at most the new one may come back.
   */
  lemma WritesAreAtomic<V(!new)>(file: File<V>, contents: V, fault: Fault)
    ensures var next, r := Write(file, contents, fault), WriteOutcome(fault);
            && (r == Done ==> forall v :: MaySurvive(next, v) <==> v == contents)
            && (r == Failed(Error.Storage) ==> next == file)
            && (r != Done ==>
                  (forall v :: MaySurvive(next, v) <==> MaySurvive(file, v))
                  || (next.visible == contents
                      && forall v :: MaySurvive(next, v) <==> MaySurvive(file, v) || v == contents))
  {
    forall v ensures MaySurvive(file, v) <==> v in file.Versions() {
      SurvivorsAreVersions(file, v);
    }
    var next := Write(file, contents, fault);
    forall v ensures MaySurvive(next, v) <==> v in next.Versions() {
      SurvivorsAreVersions(next, v);
    }
  }
}
