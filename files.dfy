/** Directories as the scripts see them through `fs`. */
module Files {
  /** A directory: file name to file text. */
  type Dir = map<string, string>

  /** `names` is what `readdirSync` returns for `d`: every file once, in
      the order the file system lists them. */
  ghost predicate IsListing(names: seq<string>, d: Dir) {
    (forall n :: n in names <==> n in d)
    && forall i, j :: 0 <= i < j < |names| ==> names[i] != names[j]
  }

  /** `path.join(dir, name)` for a plain file name and a directory path
      without `.` segments or a trailing separator. */
  function JoinPath(dir: string, name: string): string {
    dir + "/" + name
  }
}
