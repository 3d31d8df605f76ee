/** The records the program passes around as dictionaries: a scanned
    directory entry, a placeholder argument, and a template's stored
    configuration (`{"dirs_and_files": ..., "args": ...}`). */
module Types {
  import opened Common

  /** An entry's `"type"`: `"file"`, `"dir"`, or any other string a corrupt
      configuration may hold. */
  datatype Kind = File | Dir | Other(tag: string)

  /** One element of `dirs_and_files`: base name, type, parent directory
      relative to the scanned root, permission bits (opaque), the text of a
      file (`None` for a directory) and the placeholder names found in it. */
  datatype Entry = Entry(
    name: string,
    kind: Kind,
    root: string,
    mode: int,
    content: Option<string>,
    arguments: seq<string>)

  /** `{"name": ..., "default_value": ...}`: a placeholder name and its
      optional default. */
  datatype Arg = Arg(name: string, defaultValue: Option<string>)

  /** A template's stored configuration. */
  datatype TemplateConfig = TemplateConfig(entries: seq<Entry>, args: seq<Arg>)

  function Names(args: seq<Arg>): (r: seq<string>)
    ensures |r| == |args|
    ensures forall k :: 0 <= k < |args| ==> r[k] == args[k].name
  {
    seq(|args|, k requires 0 <= k < |args| => args[k].name)
  }
}
