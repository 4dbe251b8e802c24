/**
 * The filesystem as the tile tools see it: the set of paths of the files that
 * exist. Creating a file adds its path; nothing is ever deleted.
 */
module FileSystem {

  class Disk {
    var files: set<string>

    constructor (files: set<string>)
      ensures this.files == files
    {
      this.files := files;
    }
  }
}
