/** The template registry of database.py: a map from template name to its
    record, and the configuration files the records point to. The JSON
    encoding of both is not modelled: the registry file is the field
    `database` and the configuration files are the field `configFiles`,
    keyed by path. Directory checks go to a `FileSystem`. */
module Database {
  import opened Common
  import opened Types
  import opened Grammar
  import opened Files
  import opened Scan

  /** `{"project_dir": …, "location": …, "config_file": …}` */
  datatype Record = Record(projectDir: string, location: string, configFile: string)

  /** What `get_template` and `delete_template` return. */
  datatype Template = Template(projectDir: string, config: TemplateConfig)

  /** `os.path.join(location_dir, f"{name}.json")` (database.py:50). */
  function ConfigFile(location: string, name: string): string {
    PathJoin(location, name + ".json")
  }

  /** The last path component: what follows the last `/`. */
  function LastComponent(s: string): (t: string)
    ensures '/' !in t
    ensures |t| <= |s| && s[|s| - |t|..] == t
    decreases |s|
  {
    if s == [] || s[|s| - 1] == '/' then []
    else
      var t := LastComponent(s[..|s| - 1]);
      assert s[..|s| - 1][|s| - 1 - |t|..] == t;
      assert s[|s| - 1 - |t|..] == t + [s[|s| - 1]];
      t + [s[|s| - 1]]
  }

  lemma LastComponentSnoc(q: string, c: char)
    requires c != '/'
    ensures LastComponent(q + [c]) == LastComponent(q) + [c]
  {
    assert (q + [c])[..|q|] == q;
  }

  lemma {:induction false} LastComponentOfJoin(p: string, b: string)
    requires p == [] || p[|p| - 1] == '/'
    requires '/' !in b
    ensures LastComponent(p + b) == b
    decreases |b|
  {
    if b == [] {
      assert p + b == p;
    } else {
      var b', c := b[..|b| - 1], b[|b| - 1];
      assert c in b;
      assert '/' !in b' by {
        forall i | 0 <= i < |b'| ensures b'[i] != '/' { assert b'[i] == b[i]; }
      }
      assert b == b' + [c];
      LastComponentOfJoin(p, b');
      assert p + b == (p + b') + [c];
      LastComponentSnoc(p + b', c);
    }
  }

  /** A template's configuration file is named after the template alone. */
  lemma ConfigFileNamed(location: string, name: string)
    requires IsTemplateName(name)
    ensures LastComponent(ConfigFile(location, name)) == name + ".json"
  {
    TemplateNameHasNoSlash(name);
    var b := name + ".json";
    assert '/' !in b by {
      forall i | 0 <= i < |b| ensures b[i] != '/' {
        if i < |name| { assert b[i] == name[i]; }
      }
    }
    assert b[0] == name[0];
    if location == [] || location[|location| - 1] == '/' {
      LastComponentOfJoin(location, b);
    } else {
      assert ConfigFile(location, name) == (location + "/") + b;
      LastComponentOfJoin(location + "/", b);
    }
  }

  /** Two templates never share a configuration file, wherever they are
      stored, so deleting one never removes the file of another. */
  lemma ConfigFilesDistinct(l1: string, n1: string, l2: string, n2: string)
    requires IsTemplateName(n1) && IsTemplateName(n2) && n1 != n2
    ensures ConfigFile(l1, n1) != ConfigFile(l2, n2)
  {
    ConfigFileNamed(l1, n1);
    ConfigFileNamed(l2, n2);
    if |n1| == |n2| {
      var i :| 0 <= i < |n1| && n1[i] != n2[i];
      assert (n1 + ".json")[i] != (n2 + ".json")[i];
    } else {
      assert |n1 + ".json"| != |n2 + ".json"|;
    }
  }

  /** `scan_args` raises nothing on the scanned entries. */
  ghost predicate ScanSucceeds(scanned: seq<Entry>) {
    && ScannedPrefix(scanned) == |scanned|
    && ScanAll(scanned).Ok?
    && !HasConflict(Occurrences(scanned, ScanAll(scanned).value))
  }

  /** `config` is what `add_template` stores for the scanned entries: the
      entries with their arguments, and the filtered argument list. */
  ghost predicate ScannedConfig(scanned: seq<Entry>, config: TemplateConfig) {
    && ScanAll(scanned).Ok?
    && config.entries == Marked(scanned, ScanAll(scanned).value)
    && IsFiltered(Occurrences(scanned, ScanAll(scanned).value), config.args)
  }

  /** The checks of `add_template` that look at the file system pass. */
  predicate Placeable(nodes: map<string, Node>, name: string, projectDir: string, location: string) {
    && IsTemplateName(name)
    && projectDir in nodes && nodes[projectDir].DirNode?
    && (location !in nodes || nodes[location].DirNode?)
  }

  /** `scan_args(dirs_and_files)` and the configuration built from it
      (database.py:44-49). */
  method ScanConfig(scanned: seq<Entry>) returns (r: Result<TemplateConfig>)
    ensures r.Ok? <==> ScanSucceeds(scanned)
    ensures r.Ok? ==> ScannedConfig(scanned, r.value)
  {
    var entries := new Entry[|scanned|](i requires 0 <= i < |scanned| => scanned[i]);
    assert entries[..] == scanned;
    var args := ScanArgs(entries);
    if args.Err? {
      return Err(args.error);
    }
    assert scanned[..|scanned|] == scanned;
    r := Ok(TemplateConfig(entries[..], args.value));
  }

  /** The checks of `add_template` before the registry is read
      (database.py:20-34): the name, the project directory, and the location
      directory, which is created when missing. */
  method CheckPlacement(fs: FileSystem, name: string, projectDir: string, location: string)
    returns (o: Outcome)
    modifies fs
    ensures o.Pass? <==> Placeable(old(fs.nodes), name, projectDir, location)
    ensures o.Fail? ==> o.error.ValueError?
    ensures !IsTemplateName(name) || !old(fs.IsDir(projectDir)) ==> unchanged(fs)
    ensures fs.nodes ==
      if IsTemplateName(name) && old(fs.IsDir(projectDir)) && location !in old(fs.nodes)
      then old(fs.nodes)[location := DirNode(NewDirMode)]
      else old(fs.nodes)
  {
    if !IsTemplateName(name) {
      return Fail(ValueError("Invalid template name: " + name));
    }
    if !fs.Exists(projectDir) {
      return Fail(ValueError("Project directory does not exist: " + projectDir));
    }
    if !fs.IsDir(projectDir) {
      return Fail(ValueError("Project directory is not a directory: " + projectDir));
    }
    if !fs.Exists(location) {
      var made := fs.MakeDirsAt(location, false);
    }
    if !fs.IsDir(location) {
      return Fail(ValueError("Location directory is not a directory: " + location));
    }
    o := Pass;
  }

  class Registry {
    var database: map<string, Record>
    var configFiles: map<string, TemplateConfig>

    /** Every record was written by `add_template`: a valid name, and a
        configuration file at `location/<name>.json` that exists. */
    ghost predicate Valid()
      reads this
    {
      forall n :: n in database ==>
        && IsTemplateName(n)
        && database[n].configFile == ConfigFile(database[n].location, n)
        && database[n].configFile in configFiles
    }

    /** A missing registry file is created empty. */
    constructor ()
      ensures database == map[] && configFiles == map[]
      ensures Valid()
    {
      database := map[];
      configFiles := map[];
    }

    /** `add_template(name, project_dir, location_dir)` (database.py:12-58),
        with `scanned` the result of `scan_directory(project_dir)`. */
    method Add(fs: FileSystem, name: string, projectDir: string, location: string, scanned: seq<Entry>)
      returns (o: Outcome)
      modifies this, fs
      ensures !IsTemplateName(name) || !old(fs.IsDir(projectDir)) ==>
        o.Fail? && o.error.ValueError? && unchanged(this) && unchanged(fs)
      ensures fs.nodes ==
        if IsTemplateName(name) && old(fs.IsDir(projectDir)) && location !in old(fs.nodes)
        then old(fs.nodes)[location := DirNode(NewDirMode)]
        else old(fs.nodes)
      ensures Placeable(old(fs.nodes), name, projectDir, location) && name in old(database) ==>
        o.Fail? && o.error.ValueError?
      ensures o.Pass? <==>
        Placeable(old(fs.nodes), name, projectDir, location) && name !in old(database) && ScanSucceeds(scanned)
      ensures o.Fail? ==> database == old(database) && configFiles == old(configFiles)
      ensures o.Pass? ==>
        var cf := ConfigFile(location, name);
        && database == old(database)[name := Record(projectDir, location, cf)]
        && cf in configFiles
        && configFiles == old(configFiles)[cf := configFiles[cf]]
        && ScannedConfig(scanned, configFiles[cf])
      ensures old(Valid()) ==> Valid()
    {
      o := CheckPlacement(fs, name, projectDir, location);
      if o.Fail? {
        return;
      }
      if name in database {
        return Fail(ValueError("Template already exists: " + name));
      }
      var config := ScanConfig(scanned);
      if config.Err? {
        return Fail(config.error);
      }
      var cf := ConfigFile(location, name);
      configFiles := configFiles[cf := config.value];
      database := database[name := Record(projectDir, location, cf)];
      o := Pass;
    }

    /** `delete_template(name)` (database.py:61-81): an unknown name raises
        ValueError; otherwise the configuration file is read and removed,
        the record is dropped, and the project directory and configuration
        are returned. */
    method Delete(name: string) returns (r: Result<Template>)
      modifies this
      ensures name !in old(database) ==> r.Err? && r.error.ValueError? && unchanged(this)
      ensures name in old(database) && old(database[name].configFile) !in old(configFiles) ==>
        r == Err(FileNotFoundError(old(database[name].configFile))) && unchanged(this)
      ensures r.Ok? <==> name in old(database) && old(database[name].configFile) in old(configFiles)
      ensures r.Ok? ==>
        var rec := old(database[name]);
        && r.value == Template(rec.projectDir, old(configFiles[rec.configFile]))
        && database == old(database) - {name}
        && configFiles == old(configFiles) - {rec.configFile}
      ensures old(Valid()) ==> Valid()
    {
      if name !in database {
        return Err(ValueError("Template does not exist: " + name));
      }
      var rec := database[name];
      if rec.configFile !in configFiles {
        return Err(FileNotFoundError(rec.configFile));
      }
      var config := configFiles[rec.configFile];
      ghost var before := database;
      configFiles := configFiles - {rec.configFile};
      database := database - {name};
      if old(Valid()) {
        forall n | n in database
          ensures database[n].configFile in configFiles
        {
          ConfigFilesDistinct(before[n].location, n, rec.location, name);
        }
      }
      r := Ok(Template(rec.projectDir, config));
    }

    /** `update_template(name, project_dir, location_dir)`
        (database.py:84-92): delete, then add. An unknown name fails before
        anything changes; when the add fails the template stays deleted. */
    method Update(fs: FileSystem, name: string, projectDir: string, location: string, scanned: seq<Entry>)
      returns (o: Outcome)
      modifies this, fs
      ensures name !in old(database) ==> o.Fail? && o.error.ValueError? && unchanged(this) && unchanged(fs)
      ensures o.Pass? ==>
        name in database && database[name] == Record(projectDir, location, ConfigFile(location, name))
      ensures name in old(database) && old(database[name].configFile) in old(configFiles) && o.Fail? ==>
        name !in database
      ensures forall m :: m != name ==>
        (m in database <==> m in old(database)) && (m in database ==> database[m] == old(database[m]))
      ensures old(Valid()) ==> Valid()
    {
      var removed := Delete(name);
      if removed.Err? {
        return Fail(removed.error);
      }
      o := Add(fs, name, projectDir, location, scanned);
    }

    /** `get_template(name)` (database.py:95-111). A configuration file
        that is gone reads as an empty JSON object, which holds no entries
        and no arguments. */
    method Get(name: string) returns (r: Result<Template>)
      ensures r.Ok? <==> name in database
      ensures r.Err? ==> r.error.ValueError?
      ensures r.Ok? ==> r.value.projectDir == database[name].projectDir
      ensures r.Ok? ==>
        r.value.config == if database[name].configFile in configFiles then configFiles[database[name].configFile] else TemplateConfig([], [])
      ensures Valid() && r.Ok? ==> r.value.config == configFiles[database[name].configFile]
    {
      if name !in database {
        return Err(ValueError("Template does not exist: " + name));
      }
      var rec := database[name];
      var config := if rec.configFile in configFiles then configFiles[rec.configFile] else TemplateConfig([], []);
      r := Ok(Template(rec.projectDir, config));
    }

    /** `list_template_names()` (database.py:114-122): every registered
        name, once. */
    method ListNames() returns (names: seq<string>)
      ensures forall n :: n in names <==> n in database
      ensures |names| == |database.Keys|
    {
      names := [];
      var rest := database.Keys;
      while rest != {}
        invariant rest <= database.Keys
        invariant forall n :: n in names <==> n in database && n !in rest
        invariant |names| + |rest| == |database.Keys|
        decreases |rest|
      {
        var n :| n in rest;
        names := names + [n];
        rest := rest - {n};
      }
    }
  }
}
