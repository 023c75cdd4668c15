/** The master key file, seen as a store: what it holds (nothing, text that does not
    parse, or a JSON object) and whether a write to it can succeed. The two write outcomes
    stand for the environment -- whether the parent directory exists or can be created,
    and whether the file can be opened for writing. */
module KeyFiles {
  import opened Wrappers
  import opened Json

  datatype Store = Store(contents: Option<Document>, directoryReady: bool, openable: bool)

  /** `std::runtime_error` thrown by `writeToFile`. */
  datatype PersistenceError = CannotCreateDirectory | CannotOpenForWrite

  /** The file at the key file path. */
  class KeyFile {
    var contents: Option<Document>
    var directoryReady: bool
    var openable: bool

    function State(): Store
      reads this
    {
      Store(contents, directoryReady, openable)
    }

    constructor (s: Store)
      ensures State() == s
    {
      contents, directoryReady, openable := s.contents, s.directoryReady, s.openable;
    }

    /** Replaces the file's contents (open with truncation, then write). */
    method Replace(d: Document)
      modifies this
      ensures State() == old(State()).(contents := Some(d))
    {
      contents := Some(d);
    }
  }
}
