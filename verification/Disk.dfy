/** One side of a sync: a flat map from relative path to file. */
module Disks {
  import opened Prelude

  type Path = string

  /** mtime is in nanoseconds since the epoch. */
  datatype File = File(data: bytes, mtime: int)

  class Disk {
    var files: map<Path, File>

    constructor ()
      ensures files == map[]
    {
      files := map[];
    }

    /** Creates or replaces a file. */
    method Write(p: Path, f: File)
      modifies this
      ensures files == old(files)[p := f]
    {
      files := files[p := f];
    }

    /** Removes a file; removing one that is not there changes nothing. */
    method Remove(p: Path)
      modifies this
      ensures files == old(files) - {p}
    {
      files := files - {p};
    }
  }
}
