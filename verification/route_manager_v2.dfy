/**
 * noona/restAPI/routeManagerV2.mjs: the `/v2` route table built by walking
 * `v2/<category>/<action>/<file>.mjs`, and the public/locked decision for each
 * route. The walk is over a directory tree given as a value; the app is the
 * object whose route table `app.use` grows.
 */
module RouteManagerV2 {
  import opened JsString

  /** `publicRoutes`: the routes mounted without `authLock`, besides the `system` category. */
  const PublicRoutes: seq<string> := ["/v2/redis/publicKey/create", "/v2/redis/publicKey/read/:service"]

  /** What `await import(routeFile)` gives: it throws, or a module with or without a default export. */
  datatype Load = LoadThrows | NoDefault | HasDefault

  /** A directory entry as `fs.stat` sees it. */
  datatype Entry = File(name: string, load: Load) | Dir(name: string, entries: seq<Entry>)

  /** Importing a directory (one whose name ends in `.mjs`) throws. */
  function ImportOf(e: Entry): Load {
    match e
    case File(_, load) => load
    case Dir(_, _) => LoadThrows
  }

  /** `/v2/${category}/${action}/${file.replace('.mjs', '')}` */
  function RoutePath(category: string, action: string, file: string): string {
    "/v2/" + category + "/" + action + "/" + ReplaceFirst(file, ".mjs", "")
  }

  /** `isExplicitPublic || isSystem`; nothing else, in particular no module's `routeMeta`, is consulted. */
  predicate IsPublic(category: string, routePath: string) {
    routePath in PublicRoutes || category == "system"
  }

  /** One `app.use(path, [authLock,] handler)`, with the names it was built from. */
  datatype Mount = Mount(path: string, category: string, action: string, file: string, locked: bool)

  /** A mount built the way the walk builds them: locked exactly when not public. */
  predicate WellFormed(m: Mount) {
    && m.path == RoutePath(m.category, m.action, m.file)
    && EndsWith(m.file, ".mjs")
    && (m.locked <==> !IsPublic(m.category, m.path))
  }

  /** A file the walk mounts: its name ends in `.mjs` and importing it gives a default export. */
  predicate Mountable(file: Entry) {
    EndsWith(file.name, ".mjs") && ImportOf(file) == HasDefault
  }

  /** The mount for file `file` of `v2/<category>/<action>`: locked unless public. */
  function MountOf(category: string, action: string, file: string): Mount {
    var routePath := RoutePath(category, action, file);
    Mount(routePath, category, action, file, !IsPublic(category, routePath))
  }

  /** What one directory entry contributes: a mount when it is mountable, nothing otherwise. */
  function FileMount(category: string, action: string, file: Entry): seq<Mount> {
    if Mountable(file) then [MountOf(category, action, file.name)] else []
  }

  /** The mounts made for the files of one action directory, in `readdir` order. */
  function FileMounts(category: string, action: string, files: seq<Entry>): (ms: seq<Mount>)
    ensures |ms| <= |files|
    decreases |files|
  {
    if files == [] then []
    else FileMounts(category, action, files[..|files| - 1]) + FileMount(category, action, files[|files| - 1])
  }

  function ActionMountsOf(category: string, action: Entry): seq<Mount> {
    match action
    case File(_, _) => []
    case Dir(name, files) => FileMounts(category, name, files)
  }

  /** The mounts made under one category directory; entries that are not directories are skipped. */
  function ActionMounts(category: string, actions: seq<Entry>): seq<Mount>
    decreases |actions|
  {
    if actions == [] then []
    else ActionMounts(category, actions[..|actions| - 1]) + ActionMountsOf(category, actions[|actions| - 1])
  }

  function CategoryMountsOf(category: Entry): seq<Mount> {
    match category
    case File(_, _) => []
    case Dir(name, actions) => ActionMounts(name, actions)
  }

  /** Every mount `mountRoutesV2` makes, in order; each is locked unless listed public or under `system`. */
  function Mounts(categories: seq<Entry>): seq<Mount>
    decreases |categories|
  {
    if categories == [] then []
    else Mounts(categories[..|categories| - 1]) + CategoryMountsOf(categories[|categories| - 1])
  }

  function FileFailure(file: Entry): seq<string> {
    if EndsWith(file.name, ".mjs") && ImportOf(file) == LoadThrows then [file.name] else []
  }

  function FileFailures(files: seq<Entry>): seq<string>
    decreases |files|
  {
    if files == [] then [] else FileFailures(files[..|files| - 1]) + FileFailure(files[|files| - 1])
  }

  function ActionFailures(actions: seq<Entry>): seq<string>
    decreases |actions|
  {
    if actions == [] then []
    else
      var last := actions[|actions| - 1];
      ActionFailures(actions[..|actions| - 1]) + (if last.Dir? then FileFailures(last.entries) else [])
  }

  /** The files reported as "Failed to load route", in order. */
  function Failures(categories: seq<Entry>): seq<string>
    decreases |categories|
  {
    if categories == [] then []
    else
      var last := categories[|categories| - 1];
      Failures(categories[..|categories| - 1]) + (if last.Dir? then ActionFailures(last.entries) else [])
  }

  /** The Express app, reduced to its growing route table. */
  class App {
    var routes: seq<Mount>

    constructor ()
      ensures routes == []
    {
      routes := [];
    }
  }

  /**
   * `mountRoutesV2(app)`: walks categories, actions and files in order,
   * descending only into directories, and mounts every `.mjs` file whose module
   * has a default export. A file that fails to load is reported and the walk
   * goes on with the next one.
   */
  method MountRoutesV2(app: App, categories: seq<Entry>) returns (failed: seq<string>)
    modifies app
    ensures app.routes == old(app.routes) + Mounts(categories)
    ensures failed == Failures(categories)
  {
    failed := [];
    for i := 0 to |categories|
      invariant app.routes == old(app.routes) + Mounts(categories[..i])
      invariant failed == Failures(categories[..i])
    {
      assert categories[..i + 1][..i] == categories[..i];
      var category := categories[i];
      assert Mounts(categories[..i + 1]) == Mounts(categories[..i]) + CategoryMountsOf(category);
      assert Failures(categories[..i + 1]) == Failures(categories[..i]) + (if category.Dir? then ActionFailures(category.entries) else []);
      if category.Dir? {
        var failedHere := MountActions(app, category.name, category.entries);
        AppendAssoc(old(app.routes), Mounts(categories[..i]), ActionMounts(category.name, category.entries));
        failed := failed + failedHere;
      }
    }
    assert categories[..|categories|] == categories;
  }

  /** The inner loop over the action directories of one category. */
  method MountActions(app: App, category: string, actions: seq<Entry>) returns (failed: seq<string>)
    modifies app
    ensures app.routes == old(app.routes) + ActionMounts(category, actions)
    ensures failed == ActionFailures(actions)
  {
    failed := [];
    for j := 0 to |actions|
      invariant app.routes == old(app.routes) + ActionMounts(category, actions[..j])
      invariant failed == ActionFailures(actions[..j])
    {
      assert actions[..j + 1][..j] == actions[..j];
      var action := actions[j];
      assert ActionMounts(category, actions[..j + 1]) == ActionMounts(category, actions[..j]) + ActionMountsOf(category, action);
      if action.Dir? {
        var failedHere := MountFiles(app, category, action.name, action.entries);
        AppendAssoc(old(app.routes), ActionMounts(category, actions[..j]), FileMounts(category, action.name, action.entries));
        failed := failed + failedHere;
      }
    }
    assert actions[..|actions|] == actions;
  }

  /** The innermost loop: one `app.use` per loadable `.mjs` file of an action directory. */
  method MountFiles(app: App, category: string, action: string, files: seq<Entry>) returns (failed: seq<string>)
    modifies app
    ensures app.routes == old(app.routes) + FileMounts(category, action, files)
    ensures failed == FileFailures(files)
  {
    failed := [];
    for k := 0 to |files|
      invariant app.routes == old(app.routes) + FileMounts(category, action, files[..k])
      invariant failed == FileFailures(files[..k])
    {
      assert files[..k + 1][..k] == files[..k];
      var file := files[k];
      if !EndsWith(file.name, ".mjs") {
        continue;
      }
      match ImportOf(file) {
        case LoadThrows =>
          failed := failed + [file.name];
        case NoDefault =>
        case HasDefault =>
          var routePath := RoutePath(category, action, file.name);
          var isExplicitPublic := routePath in PublicRoutes;
          var isSystem := category == "system";
          ghost var mounted := FileMounts(category, action, files[..k]);
          if isExplicitPublic || isSystem {
            app.routes := app.routes + [Mount(routePath, category, action, file.name, false)];
          } else {
            app.routes := app.routes + [Mount(routePath, category, action, file.name, true)];
          }
          AppendAssoc(old(app.routes), mounted, FileMount(category, action, file));
      }
    }
    assert files[..|files|] == files;
  }

  lemma AppendAssoc<T>(a: seq<T>, b: seq<T>, c: seq<T>)
    ensures a + b + c == a + (b + c)
  {
  }

  /** The files of an action directory contribute independently: one file's failure removes no other mount. */
  lemma {:induction false} FileMountsAppend(category: string, action: string, xs: seq<Entry>, ys: seq<Entry>)
    ensures FileMounts(category, action, xs + ys) == FileMounts(category, action, xs) + FileMounts(category, action, ys)
    decreases |ys|
  {
    if ys == [] {
      assert xs + ys == xs;
    } else {
      var zs, init, last := xs + ys, ys[..|ys| - 1], ys[|ys| - 1];
      assert zs[..|zs| - 1] == xs + init;
      assert zs[|zs| - 1] == last;
      calc {
        FileMounts(category, action, zs);
        FileMounts(category, action, xs + init) + FileMount(category, action, last);
        { FileMountsAppend(category, action, xs, init); }
        FileMounts(category, action, xs) + FileMounts(category, action, init) + FileMount(category, action, last);
        FileMounts(category, action, xs) + FileMounts(category, action, ys);
      }
    }
  }

  /**
   * The listed `/v2/redis/publicKey/read/:service` has three slashes after
   * `/v2/`, a generated route path only two, so that entry never matches any
   * route.
   */
  lemma ReadEntryNeverMatches(category: string, action: string, file: string)
    requires '/' !in category && '/' !in action && '/' !in file
    ensures RoutePath(category, action, file) != PublicRoutes[1]
  {
    var stem := ReplaceFirst(file, ".mjs", "");
    ReplaceFirstNoNewChars(file, ".mjs", "");
    var path := "/v2/" + category + "/" + action + "/" + stem;
    var i, j := 4 + |category|, 5 + |category| + |action|;
    forall k | 4 <= k < |path| && k != i && k != j
      ensures path[k] != '/'
    {
      if k < i {
        assert path[k] == category[k - 4];
      } else if k < j {
        assert path[k] == action[k - i - 1];
      } else {
        assert path[k] == stem[k - j - 1];
      }
    }
    var entry := "/v2/redis/publicKey/read/:service";
    assert PublicRoutes[1] == entry;
    assert |entry| == 33 && entry[9] == '/' && entry[19] == '/' && entry[24] == '/';
  }

  /** Each file contributes mounts built from its own names and locked exactly when not public. */
  lemma {:induction false} FileMountsWellFormed(category: string, action: string, files: seq<Entry>)
    ensures forall m :: m in FileMounts(category, action, files) ==> WellFormed(m) && m.category == category && m.action == action
    decreases |files|
  {
    if files != [] {
      FileMountsWellFormed(category, action, files[..|files| - 1]);
    }
  }

  lemma {:induction false} ActionMountsWellFormed(category: string, actions: seq<Entry>)
    ensures forall m :: m in ActionMounts(category, actions) ==> WellFormed(m) && m.category == category
    decreases |actions|
  {
    if actions != [] {
      ActionMountsWellFormed(category, actions[..|actions| - 1]);
      var last := actions[|actions| - 1];
      if last.Dir? {
        FileMountsWellFormed(category, last.name, last.entries);
      }
    }
  }

  /**
   * Every route `mountRoutesV2` mounts sits at the path built from its
   * category, action and file names, comes from a `.mjs` file, and is behind
   * `authLock` exactly when it is neither listed public nor under `system`.
   */
  lemma {:induction false} MountsWellFormed(categories: seq<Entry>)
    ensures forall m :: m in Mounts(categories) ==> WellFormed(m)
    decreases |categories|
  {
    if categories != [] {
      MountsWellFormed(categories[..|categories| - 1]);
      var last := categories[|categories| - 1];
      if last.Dir? {
        ActionMountsWellFormed(last.name, last.entries);
      }
    }
  }

  /** `m` is the mount of a mountable file among `files` of `v2/<category>/<action>`. */
  predicate FromFiles(category: string, action: string, files: seq<Entry>, m: Mount) {
    exists f :: f in files && Mountable(f) && m == MountOf(category, action, f.name)
  }

  /** `m` comes from a mountable file of one of the action directories among `actions`. */
  predicate FromActions(category: string, actions: seq<Entry>, m: Mount) {
    exists a :: a in actions && a.Dir? && FromFiles(category, a.name, a.entries, m)
  }

  /** `m` comes from a mountable file two directory levels below one of the category directories. */
  predicate FromCategories(categories: seq<Entry>, m: Mount) {
    exists c :: c in categories && c.Dir? && FromActions(c.name, c.entries, m)
  }

  /**
   * The files of an action directory that are mounted are exactly its
   * mountable ones: non-`.mjs` entries, modules that fail to import and modules
   * without a default export are skipped, and every other file is mounted.
   */
  lemma {:induction false} FileMountsExactly(category: string, action: string, files: seq<Entry>)
    ensures forall m :: m in FileMounts(category, action, files) <==> FromFiles(category, action, files, m)
    decreases |files|
  {
    if files != [] {
      FileMountsExactly(category, action, files[..|files| - 1]);
      forall m
        ensures m in FileMounts(category, action, files) <==> FromFiles(category, action, files, m)
      {
        FileMountStep(category, action, files, m);
      }
    }
  }

  /** The last file of a listing adds its own mount, if any, to those of the files before it. */
  lemma FileMountStep(category: string, action: string, files: seq<Entry>, m: Mount)
    requires files != []
    requires var init := files[..|files| - 1];
      m in FileMounts(category, action, init) <==> FromFiles(category, action, init, m)
    ensures m in FileMounts(category, action, files) <==> FromFiles(category, action, files, m)
  {
    var init, last := files[..|files| - 1], files[|files| - 1];
    assert files == init + [last];
    assert FileMounts(category, action, files) == FileMounts(category, action, init) + FileMount(category, action, last);
    if FromFiles(category, action, files, m) {
      var f :| f in files && Mountable(f) && m == MountOf(category, action, f.name);
      if f != last {
        assert f in init;
      }
    }
    if FromFiles(category, action, init, m) {
      var f :| f in init && Mountable(f) && m == MountOf(category, action, f.name);
      assert f in files;
    }
  }

  /**
   * The mounts under a category are exactly the mountable files of its
   * sub-directories; entries of the category that are not directories
   * contribute nothing.
   */
  lemma {:induction false} ActionMountsExactly(category: string, actions: seq<Entry>)
    ensures forall m :: m in ActionMounts(category, actions) <==> FromActions(category, actions, m)
    decreases |actions|
  {
    if actions != [] {
      var last := actions[|actions| - 1];
      ActionMountsExactly(category, actions[..|actions| - 1]);
      if last.Dir? {
        FileMountsExactly(category, last.name, last.entries);
      }
      forall m
        ensures m in ActionMounts(category, actions) <==> FromActions(category, actions, m)
      {
        ActionMountStep(category, actions, m);
      }
    }
  }

  /** The last entry of a category adds the mounts of its files when it is a directory. */
  lemma ActionMountStep(category: string, actions: seq<Entry>, m: Mount)
    requires actions != []
    requires var init := actions[..|actions| - 1];
      m in ActionMounts(category, init) <==> FromActions(category, init, m)
    requires var last := actions[|actions| - 1];
      last.Dir? ==> (m in FileMounts(category, last.name, last.entries) <==> FromFiles(category, last.name, last.entries, m))
    ensures m in ActionMounts(category, actions) <==> FromActions(category, actions, m)
  {
    var init, last := actions[..|actions| - 1], actions[|actions| - 1];
    assert actions == init + [last];
    assert ActionMounts(category, actions) == ActionMounts(category, init) + ActionMountsOf(category, last);
    if FromActions(category, actions, m) {
      var a :| a in actions && a.Dir? && FromFiles(category, a.name, a.entries, m);
      if a != last {
        assert a in init;
      }
    }
    if FromActions(category, init, m) {
      var a :| a in init && a.Dir? && FromFiles(category, a.name, a.entries, m);
      assert a in actions;
    }
  }

  /**
   * Every route `mountRoutesV2` mounts comes from a mountable file two
   * directory levels below a category directory, and every such file is
   * mounted.
   */
  lemma {:induction false} MountsExactly(categories: seq<Entry>)
    ensures forall m :: m in Mounts(categories) <==> FromCategories(categories, m)
    decreases |categories|
  {
    if categories != [] {
      var last := categories[|categories| - 1];
      MountsExactly(categories[..|categories| - 1]);
      if last.Dir? {
        ActionMountsExactly(last.name, last.entries);
      }
      forall m
        ensures m in Mounts(categories) <==> FromCategories(categories, m)
      {
        CategoryMountStep(categories, m);
      }
    }
  }

  /** The last category entry adds the mounts under it when it is a directory. */
  lemma CategoryMountStep(categories: seq<Entry>, m: Mount)
    requires categories != []
    requires var init := categories[..|categories| - 1];
      m in Mounts(init) <==> FromCategories(init, m)
    requires var last := categories[|categories| - 1];
      last.Dir? ==> (m in ActionMounts(last.name, last.entries) <==> FromActions(last.name, last.entries, m))
    ensures m in Mounts(categories) <==> FromCategories(categories, m)
  {
    var init, last := categories[..|categories| - 1], categories[|categories| - 1];
    assert categories == init + [last];
    assert Mounts(categories) == Mounts(init) + CategoryMountsOf(last);
    if FromCategories(categories, m) {
      var c :| c in categories && c.Dir? && FromActions(c.name, c.entries, m);
      if c != last {
        assert c in init;
      }
    }
    if FromCategories(init, m) {
      var c :| c in init && c.Dir? && FromActions(c.name, c.entries, m);
      assert c in categories;
    }
  }

  /** A loadable `<stem>.mjs` is mounted at `/v2/<category>/<action>/<stem>`. */
  lemma ModuleFileMount(category: string, action: string, stem: string)
    requires '.' !in stem
    ensures var path := "/v2/" + category + "/" + action + "/" + stem;
      FileMount(category, action, File(stem + ".mjs", HasDefault))
      == [Mount(path, category, action, stem + ".mjs", !IsPublic(category, path))]
  {
    ReplaceFirstSuffix(stem, ".mjs");
  }

  /**
   * An action directory laid out as the key registry's is: for each operation
   * a flat `<op>.mjs` next to a directory `<op>/` holding its nested copy.
   */
  function OperationEntries(ops: seq<string>): seq<Entry>
    decreases |ops|
  {
    if ops == [] then []
    else
      var op := ops[|ops| - 1];
      OperationEntries(ops[..|ops| - 1]) + [File(op + ".mjs", HasDefault), Dir(op, [File(op + "Key.mjs", HasDefault)])]
  }

  /** The route of a flat `<op>.mjs`: `/v2/<category>/<action>/<op>`, locked unless public. */
  function FlatMount(category: string, action: string, op: string): Mount {
    var path := "/v2/" + category + "/" + action + "/" + op;
    Mount(path, category, action, op + ".mjs", !IsPublic(category, path))
  }

  function FlatMounts(category: string, action: string, ops: seq<string>): seq<Mount>
    decreases |ops|
  {
    if ops == [] then []
    else FlatMounts(category, action, ops[..|ops| - 1]) + [FlatMount(category, action, ops[|ops| - 1])]
  }

  /**
   * In such a directory only the flat files are mounted, one route per
   * operation and in order: the nested copies sit one level too deep and are
   * never reached.
   */
  lemma {:induction false} OperationDirMounts(category: string, action: string, ops: seq<string>)
    requires forall op :: op in ops ==> '.' !in op
    ensures FileMounts(category, action, OperationEntries(ops)) == FlatMounts(category, action, ops)
    decreases |ops|
  {
    if ops != [] {
      var init, op := ops[..|ops| - 1], ops[|ops| - 1];
      assert forall o :: o in init ==> o in ops;
      OperationDirMounts(category, action, init);
      OperationStep(category, action, init, op);
    }
  }

  /** One operation's pair of entries adds exactly its flat route. */
  lemma OperationStep(category: string, action: string, init: seq<string>, op: string)
    requires '.' !in op
    ensures FileMounts(category, action, OperationEntries(init + [op]))
         == FileMounts(category, action, OperationEntries(init)) + [FlatMount(category, action, op)]
  {
    assert (init + [op])[..|init|] == init;
    var flat, nested := File(op + ".mjs", HasDefault), Dir(op, [File(op + "Key.mjs", HasDefault)]);
    FileMountsAppend(category, action, OperationEntries(init), [flat, nested]);
    FileMountsTwo(category, action, flat, nested);
    ModuleFileMount(category, action, op);
    NotModuleName(op);
  }

  /** A name without a dot is not taken for a module file. */
  lemma NotModuleName(name: string)
    requires '.' !in name
    ensures !EndsWith(name, ".mjs")
  {
    if |name| >= 4 {
      assert name[|name| - 4] in name;
    }
  }

  lemma FileMountsTwo(category: string, action: string, x: Entry, y: Entry)
    ensures FileMounts(category, action, [x, y]) == FileMount(category, action, x) + FileMount(category, action, y)
  {
    assert [x, y][..1] == [x];
    assert [x][..0] == [];
  }

  /**
   * The key registry's routes: `create` is public, while `read` (the public
   * entry carries `/:service`), `update` and `delete` (whose `routeMeta` says
   * public) are locked.
   */
  lemma RegistryPublic()
    ensures IsPublic("redis", "/v2/redis/publicKey/create")
    ensures !IsPublic("redis", "/v2/redis/publicKey/read")
    ensures !IsPublic("redis", "/v2/redis/publicKey/update")
    ensures !IsPublic("redis", "/v2/redis/publicKey/delete")
  {
    assert PublicRoutes[0] == "/v2/redis/publicKey/create";
  }
}
