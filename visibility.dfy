/** When written documents become visible to readers.

    The index store is abstract: a directory knows whether a commit has ever written an
    index to it and how many documents the last commit holds; a writer counts the documents
    added to it; a reader fixes its document count when it is opened. */
module Visibility {

  /** The directory on disk, as every `getDirectory(name)` of the same name sees it. */
  class Directory {
    var hasIndex: bool
    var committedDocs: nat

    /** `getCleanDirectory(name)`: no index has been written. */
    constructor Clean()
      ensures !hasIndex && committedDocs == 0
    {
      hasIndex := false;
      committedDocs := 0;
    }
  }

  /** An open `DirectoryReader`: a point-in-time view whose `numDocs()` never changes. */
  class Reader {
    const numDocs: nat

    constructor Snapshot(n: nat)
      ensures numDocs == n
    {
      numDocs := n;
    }
  }

  class IndexWriter {
    const directory: Directory
    var added: nat

    /** The writer holds every committed document and possibly more, so a near-real-time
        reader never sees fewer documents than a reader opened on the directory. */
    ghost predicate Valid()
      reads this, directory
    {
      directory.committedDocs <= added
    }

    /** `getIndexWriter(directory)`: the writer starts from what the directory holds. */
    constructor Open(d: Directory)
      ensures directory == d && added == d.committedDocs
      ensures Valid()
    {
      directory := d;
      added := d.committedDocs;
    }

    /** `indexWriter.addDocument(document)`: buffered in the writer, not yet on disk. */
    method AddDocument()
      requires Valid()
      modifies this
      ensures added == old(added) + 1
      ensures Valid()
    {
      added := added + 1;
    }

    /** `indexWriter.commit()`: the directory now holds an index with every added document. */
    method Commit()
      requires Valid()
      modifies directory
      ensures directory.hasIndex && directory.committedDocs == added
      ensures Valid()
    {
      directory.hasIndex := true;
      directory.committedDocs := added;
    }

    /** `DirectoryReader.open(indexWriter, true)`: a near-real-time reader that sees every
        added document, committed or not, as of now. */
    method OpenNearRealTime() returns (r: Reader)
      ensures fresh(r) && r.numDocs == added
      ensures Valid() ==> directory.committedDocs <= r.numDocs
    {
      r := new Reader.Snapshot(added);
    }
  }

  /** `countDocuments(directoryName)`: open a reader on the directory and count, or -1 when
      no index exists there yet (IndexNotFoundException). */
  method CountDocuments(d: Directory) returns (n: int)
    ensures !d.hasIndex ==> n == -1
    ensures d.hasIndex ==> n == d.committedDocs
  {
    if !d.hasIndex {
      return -1;
    }
    var reader := new Reader.Snapshot(d.committedDocs);
    n := reader.numDocs;
  }

  /** `withNearRealTimeSearchDocumentsBecomeVisibleSooner`: every count the two readers
      report, in the order the source asserts them. */
  method NearRealTimeScenario() returns (first: seq<nat>, second: seq<nat>)
    ensures first == [0, 0, 0, 0]
    ensures second == [1, 1, 1]
  {
    var directory := new Directory.Clean();
    var writer := new IndexWriter.Open(directory);

    var firstReader := writer.OpenNearRealTime();
    first := [firstReader.numDocs];
    writer.AddDocument();
    first := first + [firstReader.numDocs];

    var secondReader := writer.OpenNearRealTime();
    second := [secondReader.numDocs];

    writer.AddDocument();
    first := first + [firstReader.numDocs];
    second := second + [secondReader.numDocs];

    writer.Commit();
    first := first + [firstReader.numDocs];
    second := second + [secondReader.numDocs];
  }

  /** `documentsBecomeVisibleAfterACommit`: the counts read from the directory before the
      add, after the add, and after the commit. */
  method CommitVisibilityScenario() returns (observed: seq<int>)
    ensures observed == [-1, -1, 1]
  {
    var directory := new Directory.Clean();
    var writer := new IndexWriter.Open(directory);

    var n := CountDocuments(directory);
    observed := [n];

    writer.AddDocument();
    n := CountDocuments(directory);
    observed := observed + [n];

    writer.Commit();
    n := CountDocuments(directory);
    observed := observed + [n];
  }
}
