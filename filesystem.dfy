/** The part of the file system the program touches, as a map from path to
    node. Paths are plain strings: there is no normalisation and no notion
    of a parent directory, so creating `a/b` neither needs nor creates `a`.
    Each operation is specified by a step function on the map; the class
    `FileSystem` holds the map and performs the steps in place. */
module Files {
  import opened Common

  /** A directory, or a file with its text; both carry permission bits,
      kept as an opaque integer. */
  datatype Node = DirNode(mode: int) | FileNode(content: string, mode: int)

  /** The state after an operation, and whether it raised. */
  datatype Step = Step(nodes: map<string, Node>, outcome: Outcome)

  /** Permission bits of a directory or file just created, before any
      `chmod`; the process umask is not modelled. */
  const NewDirMode: int := 0x1ED
  const NewFileMode: int := 0x1A4

  /** `is_directory_empty(path)` (util.py:48-55): no path lies below it. */
  predicate IsEmptyDir(nodes: map<string, Node>, path: string) {
    forall q :: q in nodes ==> !StartsWith(q, path + "/")
  }

  /** `os.makedirs(path, exist_ok=existOk)`: an existing path raises
      FileExistsError unless it is a directory and `existOk` holds. */
  function MakeDirs(nodes: map<string, Node>, path: string, existOk: bool): (s: Step)
    ensures s.outcome.Pass? <==> path !in nodes || (existOk && nodes[path].DirNode?)
    ensures s.outcome.Pass? ==> path in s.nodes && s.nodes[path].DirNode?
    ensures s.outcome.Fail? ==> s.nodes == nodes && s.outcome.error == FileExistsError(path)
    ensures forall q :: q != path ==> (q in s.nodes <==> q in nodes) && (q in nodes ==> s.nodes[q] == nodes[q])
  {
    if path in nodes then
      if existOk && nodes[path].DirNode? then Step(nodes, Pass)
      else Step(nodes, Fail(FileExistsError(path)))
    else Step(nodes[path := DirNode(NewDirMode)], Pass)
  }

  /** `with open(path, "w") as f: f.write(content)`. Opening a directory
      raises IsADirectoryError; otherwise the file is created, or truncated
      keeping its mode, and then written. Writing None raises TypeError after
      the file was already emptied. */
  function WriteFile(nodes: map<string, Node>, path: string, content: Option<string>): (s: Step)
    ensures s.outcome.Pass? <==> !(path in nodes && nodes[path].DirNode?) && content.Some?
    ensures s.outcome.Pass? ==> path in s.nodes && s.nodes[path].FileNode? && s.nodes[path].content == content.value
    ensures path in nodes && nodes[path].DirNode? ==> s == Step(nodes, Fail(IsADirectoryError(path)))
    ensures !(path in nodes && nodes[path].DirNode?) && content.None? ==>
      s.outcome.Fail? && s.outcome.error.TypeError? && path in s.nodes && s.nodes[path].FileNode? && s.nodes[path].content == ""
    ensures forall q :: q != path ==> (q in s.nodes <==> q in nodes) && (q in nodes ==> s.nodes[q] == nodes[q])
  {
    if path in nodes && nodes[path].DirNode? then Step(nodes, Fail(IsADirectoryError(path)))
    else
      var mode := if path in nodes then nodes[path].mode else NewFileMode;
      match content
      case None => Step(nodes[path := FileNode("", mode)], Fail(TypeError("write() argument must be str, not None")))
      case Some(text) => Step(nodes[path := FileNode(text, mode)], Pass)
  }

  /** `os.chmod(path, mode)`: a missing path raises FileNotFoundError. */
  function Chmod(nodes: map<string, Node>, path: string, mode: int): (s: Step)
    ensures s.outcome.Pass? <==> path in nodes
    ensures s.outcome.Fail? ==> s == Step(nodes, Fail(FileNotFoundError(path)))
    ensures s.outcome.Pass? ==> (
      && s.nodes.Keys == nodes.Keys
      && s.nodes[path].mode == mode
      && s.nodes[path].DirNode? == nodes[path].DirNode?
      && (nodes[path].FileNode? ==> s.nodes[path].content == nodes[path].content))
    ensures forall q :: q != path && q in nodes ==> q in s.nodes && s.nodes[q] == nodes[q]
  {
    if path !in nodes then Step(nodes, Fail(FileNotFoundError(path)))
    else
      var node := match nodes[path]
        case DirNode(_) => DirNode(mode)
        case FileNode(text, _) => FileNode(text, mode);
      Step(nodes[path := node], Pass)
  }

  /** `open(path).read()`: the text of a file; a missing path raises
      FileNotFoundError and a directory IsADirectoryError. */
  function ReadFile(nodes: map<string, Node>, path: string): (r: Result<string>)
    ensures r.Ok? <==> path in nodes && nodes[path].FileNode?
    ensures r.Ok? ==> r.value == nodes[path].content
    ensures path !in nodes ==> r == Err(FileNotFoundError(path))
  {
    if path !in nodes then Err(FileNotFoundError(path))
    else match nodes[path]
      case DirNode(_) => Err(IsADirectoryError(path))
      case FileNode(text, _) => Ok(text)
  }

  /** The file system, changed in place by the program's calls. */
  class FileSystem {
    var nodes: map<string, Node>

    constructor (initial: map<string, Node>)
      ensures nodes == initial
    {
      nodes := initial;
    }

    predicate Exists(path: string)
      reads this
    {
      path in nodes
    }

    predicate IsDir(path: string)
      reads this
    {
      path in nodes && nodes[path].DirNode?
    }

    predicate IsEmpty(path: string)
      reads this
    {
      IsEmptyDir(nodes, path)
    }

    method ReadFileAt(path: string) returns (r: Result<string>)
      ensures r == ReadFile(nodes, path)
    {
      r := ReadFile(nodes, path);
    }

    method MakeDirsAt(path: string, existOk: bool) returns (o: Outcome)
      modifies this
      ensures Step(nodes, o) == MakeDirs(old(nodes), path, existOk)
    {
      var s := MakeDirs(nodes, path, existOk);
      nodes := s.nodes;
      o := s.outcome;
    }

    method WriteFileAt(path: string, content: Option<string>) returns (o: Outcome)
      modifies this
      ensures Step(nodes, o) == WriteFile(old(nodes), path, content)
    {
      var s := WriteFile(nodes, path, content);
      nodes := s.nodes;
      o := s.outcome;
    }

    method ChmodAt(path: string, mode: int) returns (o: Outcome)
      modifies this
      ensures Step(nodes, o) == Chmod(old(nodes), path, mode)
    {
      var s := Chmod(nodes, path, mode);
      nodes := s.nodes;
      o := s.outcome;
    }
  }
}
