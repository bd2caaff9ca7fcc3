/*
 * The agents' file access, with the file system as a map from path to
 * contents: a path that is missing, empty or absent from the map reads as
 * the empty text.
 */
module Files {
  import opened Wrappers

  /** A path taken from the workflow state; `None` is a missing key. */
  type Path = Option<string>

  /** Python truthiness of an optional path. */
  predicate Given(p: Path) { p.Some? && p.value != "" }

  /** `_safe_read`: the file's text when the path is given and exists, else "". */
  function SafeRead(p: Path, files: map<string, string>): (r: string)
    ensures Given(p) && p.value in files ==> r == files[p.value]
    ensures !(Given(p) && p.value in files) ==> r == ""
  {
    if Given(p) && p.value in files then files[p.value] else ""
  }

  /** `a or b` on two paths. */
  function EitherPath(a: Path, b: Path): (r: Path)
    ensures Given(a) ==> r == a
    ensures !Given(a) ==> r == b
  {
    if Given(a) then a else b
  }
}
