/** import_to_lookup_file and import_to_lookup_file_full_path: the values of
    a worksheet are staged in a temporary file, which then replaces the
    lookup file directly (copy or move, and a registry reload) or is handed
    to the platform's managed lookup update. */
module Import {
  import opened Base
  import opened Sheets

  type Path = string

  /** The owner used when none is given. */
  const Nobody: string := "nobody"

  /** What the lookup registry returns for a (name, namespace, owner)
      identity: the file's path, when it has one, and its namespace. */
  datatype LookupEntry = LookupEntry(path: Option<Path>, namespace: string)

  /** Where an import writes, and for whom. */
  datatype Target = Target(path: Path, namespace: string, owner: string)

  /** The lookups directory of an app, relative to the Splunk home. */
  function DefaultLookupPath(namespace: string, name: string): Path
  {
    "etc/apps/" + namespace + "/lookups/" + name
  }

  /** Lines 362-377: the registry's path is used when there is one; a
      missing path is an error unless the lookup may be created, in which
      case it goes to the app's lookups directory. The namespace falls back
      to the registry's and the owner to "nobody". */
  function ResolveImportTarget(entry: LookupEntry, name: string, namespace: Option<string>,
                               owner: Option<string>, create: bool): (r: Result<Target>)
    ensures r.Err? <==> entry.path.None? && !create
    ensures r.Err? ==> r.error == LookupNotFound
    ensures r.Ok? ==> r.value.owner == (if owner.Some? then owner.value else Nobody)
    ensures r.Ok? ==> r.value.namespace == (if namespace.Some? then namespace.value else entry.namespace)
    ensures r.Ok? && entry.path.Some? ==> r.value.path == entry.path.value
    ensures r.Ok? && entry.path.None? ==> r.value.path == DefaultLookupPath(r.value.namespace, name)
  {
    var ns := if namespace.Some? then namespace.value else entry.namespace;
    var who := if owner.Some? then owner.value else Nobody;
    if entry.path.None? && !create then Err(LookupNotFound)
    else if entry.path.None? then Ok(Target(DefaultLookupPath(ns, name), ns, who))
    else Ok(Target(entry.path.value, ns, who))
  }

  /** A request handed to the platform's managed lookup update. */
  datatype UpdateRequest = UpdateRequest(contents: Grid, lookupName: string, namespace: string, owner: string)

  /** The local side: lookup files by path, the staged temporary file, how
      often the registry was reloaded, and the managed updates requested. */
  datatype Store = Store(files: map<Path, Grid>, temp: Option<Grid>, reloads: nat, updates: seq<UpdateRequest>)

  /** How the staged file was committed. */
  datatype Commit = Copied | Moved | Managed

  datatype CommitOutcome = CommitOutcome(store: Store, result: Result<Commit>)

  /** The file is replaced directly when updates through the platform are
      off, the destination does not exist yet, or no lookup name is known. */
  predicate DirectBranch(updateWithRest: bool, fileExists: bool, lookupName: Option<string>)
  {
    !updateWithRest || !fileExists || lookupName.None?
  }

  /** Lines 457-494. In the direct branch a missing destination that may not
      be created is an error; otherwise the staged file is copied over an
      existing destination or moved into place, and the registry is reloaded
      either way. In the other branch the staged file goes to the managed
      update, with the owner defaulted and the namespace taken from the
      registry when unknown, and no file is touched. */
  function CommitImport(store: Store, dest: Path, lookupName: Option<string>, namespace: Option<string>,
                        owner: Option<string>, create: bool, updateWithRest: bool,
                        registryNamespace: string): (r: CommitOutcome)
    requires store.temp.Some?
    ensures r.result == Err(ImportTargetMissing)
            <==> DirectBranch(updateWithRest, dest in store.files, lookupName) && dest !in store.files && !create
    ensures r.result.Err? ==> r.result.error == ImportTargetMissing && r.store == store
    ensures r.result == Ok(Copied) <==> DirectBranch(updateWithRest, dest in store.files, lookupName) && dest in store.files
    ensures r.result == Ok(Moved) <==> dest !in store.files && create
    ensures r.result == Ok(Managed) <==> !DirectBranch(updateWithRest, dest in store.files, lookupName)
    ensures r.result == Ok(Copied) || r.result == Ok(Moved) ==>
              && r.store.files == store.files[dest := store.temp.value]
              && r.store.reloads == store.reloads + 1
              && r.store.updates == store.updates
    ensures r.result == Ok(Copied) ==> r.store.temp == store.temp
    ensures r.result == Ok(Moved) ==> r.store.temp.None?
    ensures r.result == Ok(Managed) ==>
              && r.store.files == store.files && r.store.temp == store.temp
              && r.store.reloads == store.reloads
              && r.store.updates == store.updates + [UpdateRequest(
                   store.temp.value, lookupName.value,
                   if namespace.Some? then namespace.value else registryNamespace,
                   if owner.Some? then owner.value else Nobody)]
  {
    var fileExists := dest in store.files;
    var staged := store.temp.value;
    if DirectBranch(updateWithRest, fileExists, lookupName) then
      if !fileExists && !create then CommitOutcome(store, Err(ImportTargetMissing))
      else if fileExists then
        CommitOutcome(store.(files := store.files[dest := staged], reloads := store.reloads + 1), Ok(Copied))
      else
        CommitOutcome(store.(files := store.files[dest := staged], temp := None, reloads := store.reloads + 1), Ok(Moved))
    else
      var who := if owner.Some? then owner.value else Nobody;
      var ns := if namespace.Some? then namespace.value else registryNamespace;
      CommitOutcome(store.(updates := store.updates + [UpdateRequest(staged, lookupName.value, ns, who)]), Ok(Managed))
  }

  /** Both sides after an import, and the worksheet whose `updated` time the
      call returns. */
  datatype ImportOutcome = ImportOutcome(drive: Drive, store: Store, result: Result<Worksheet>)

  /** import_to_lookup_file_full_path: open the document by title, get or
      make the worksheet, stage `values` (what the service returns for the
      worksheet) in the temporary file, then commit it. */
  function ImportFullPath(drive: Drive, title: Option<string>, worksheetName: string, store: Store,
                          dest: Path, values: Grid, create: bool, lookupName: Option<string>,
                          namespace: Option<string>, owner: Option<string>, updateWithRest: bool,
                          registryNamespace: string): ImportOutcome
  {
    match OpenSpreadsheetIntended(drive, title, None)
    case Err(e) => ImportOutcome(drive, store, Err(e))
    case Ok(key) =>
      var (book, sheet) := GetOrMakeSheet(drive.books[key], worksheetName, DefaultRows, DefaultCols);
      var drive' := drive.(books := drive.books[key := book]);
      var staged := store.(temp := Some(values));
      var c := CommitImport(staged, dest, lookupName, namespace, owner, create, updateWithRest, registryNamespace);
      ImportOutcome(drive', c.store, if c.result.Err? then Err(c.result.error) else Ok(sheet))
  }

  /** import_to_lookup_file: resolve the target, then import into it. */
  function ImportToLookupFile(drive: Drive, store: Store, entry: LookupEntry, lookupName: string,
                              namespace: Option<string>, owner: Option<string>, title: Option<string>,
                              worksheetName: string, create: bool, values: Grid, updateWithRest: bool,
                              registryNamespace: string): ImportOutcome
  {
    match ResolveImportTarget(entry, lookupName, namespace, owner, create)
    case Err(e) => ImportOutcome(drive, store, Err(e))
    case Ok(t) =>
      ImportFullPath(drive, title, worksheetName, store, t.path, values, create, Some(lookupName),
                     Some(t.namespace), Some(t.owner), updateWithRest, registryNamespace)
  }

  /** A lookup without a path that may not be created fails with
      LookupNotFound before either side is touched. */
  lemma ImportMissingLookupChangesNothing(drive: Drive, store: Store, entry: LookupEntry, lookupName: string,
                                          namespace: Option<string>, owner: Option<string>, title: Option<string>,
                                          worksheetName: string, values: Grid, updateWithRest: bool,
                                          registryNamespace: string)
    requires entry.path.None?
    ensures ImportToLookupFile(drive, store, entry, lookupName, namespace, owner, title, worksheetName,
                               false, values, updateWithRest, registryNamespace)
            == ImportOutcome(drive, store, Err(LookupNotFound))
  {
  }

  /** After a successful direct import the destination holds exactly the
      worksheet's values and the registry has been reloaded once; after a
      managed one no file changed and the last request carries the values. */
  lemma ImportDeliversValues(drive: Drive, title: Option<string>, worksheetName: string, store: Store,
                             dest: Path, values: Grid, create: bool, lookupName: Option<string>,
                             namespace: Option<string>, owner: Option<string>, updateWithRest: bool,
                             registryNamespace: string)
    ensures var out := ImportFullPath(drive, title, worksheetName, store, dest, values, create, lookupName,
                                      namespace, owner, updateWithRest, registryNamespace);
            out.result.Ok? ==>
              if DirectBranch(updateWithRest, dest in store.files, lookupName) then
                && dest in out.store.files && out.store.files[dest] == values
                && out.store.reloads == store.reloads + 1
                && out.store.updates == store.updates
              else
                && out.store.files == store.files && out.store.reloads == store.reloads
                && |out.store.updates| == |store.updates| + 1
                && out.store.updates[|store.updates|].contents == values
  {
    var out := ImportFullPath(drive, title, worksheetName, store, dest, values, create, lookupName,
                              namespace, owner, updateWithRest, registryNamespace);
    if out.result.Ok? {
      var staged := store.(temp := Some(values));
      var c := CommitImport(staged, dest, lookupName, namespace, owner, create, updateWithRest, registryNamespace);
      assert out.store == c.store;
    }
  }

  /** Through import_to_lookup_file the managed update always gets the
      resolved namespace and owner: the registry is never asked again and
      the owner is "nobody" when none was given. */
  lemma ImportManagedRequest(drive: Drive, store: Store, entry: LookupEntry, lookupName: string,
                             namespace: Option<string>, owner: Option<string>, title: Option<string>,
                             worksheetName: string, create: bool, values: Grid, updateWithRest: bool,
                             registryNamespace: string)
    ensures var out := ImportToLookupFile(drive, store, entry, lookupName, namespace, owner, title,
                                          worksheetName, create, values, updateWithRest, registryNamespace);
            out.result.Ok? && |out.store.updates| > |store.updates| ==>
              out.store.updates[|store.updates|] == UpdateRequest(
                values, lookupName,
                if namespace.Some? then namespace.value else entry.namespace,
                if owner.Some? then owner.value else Nobody)
  {
  }
}
