/** The results directory as the service sees it through `iterdir`: a tree of
    directories whose other entries are files.  A file is known by its name
    and its parsed JSON content; None stands for content that is not valid
    JSON or cannot be read. */
module Directories {
  import opened Wrappers
  import Json

  datatype Dir = Dir(name: string, subdirs: seq<Dir>, files: seq<(string, Option<Json.Value>)>)

  /** A directory below a base, named by the position of each subdirectory
      taken on the way down (`iterdir` order). */
  type IndexPath = seq<nat>

  /** The directory at an index path, if there is one. */
  function At(d: Dir, p: IndexPath): (r: Option<Dir>)
    ensures p == [] ==> r == Some(d)
    decreases |p|
  {
    if p == [] then Some(d)
    else if p[0] < |d.subdirs| then At(d.subdirs[p[0]], p[1..])
    else None
  }

  /** `iterdir` yields nothing: no subdirectory and no file. */
  predicate IsEmpty(d: Dir) {
    d.subdirs == [] && d.files == []
  }

  /** `read_json_file(d / name)`: the parsed content of the first file with
      that name, or None when it is missing or cannot be parsed. */
  function ReadJson(d: Dir, name: string): (r: Option<Json.Value>)
    ensures r.Some? ==> exists i :: 0 <= i < |d.files| && d.files[i] == (name, r)
    ensures (forall i :: 0 <= i < |d.files| ==> d.files[i].0 != name) ==> r.None?
    decreases |d.files|
  {
    if d.files == [] then None
    else if d.files[0].0 == name then d.files[0].1
    else
      var rest := ReadJson(d.(files := d.files[1..]), name);
      assert rest.Some? ==> exists i :: 1 <= i < |d.files| && d.files[i] == (name, rest) by {
        if rest.Some? {
          var i :| 0 <= i < |d.files[1..]| && d.files[1..][i] == (name, rest);
          assert d.files[i + 1] == (name, rest);
        }
      }
      rest
  }
}
