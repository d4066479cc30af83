/**
 Making a backup archive of a home, and why a restore accepts it: exactly when the home is made of
 portably named directories, files without a second name, and admissible links, with a regular
 `auth.json`.
 */
module BackupArchive {
  import opened Text
  import opened Wrappers
  import opened ArchiveShape
  import opened ArchiveExtraction

  /** Files with one `inode` are names of one file. */
  datatype HomeNode = HomeDirectory | HomeFile(inode: nat, body: nat) | HomeLink(target: string)

  /** What lies where below the home. */
  type Home = map<Place, HomeNode>

  /** A name a file system can hold. */
  predicate IsFileName(s: string) {
    Kept(s) && s != ".." && '/' !in s && NUL !in s
  }

  ghost predicate PlaceSound(home: Home, p: Place)
    requires p in home
  {
    && p != [] && (forall s | s in p :: IsFileName(s))
    && (|p| > 1 ==> Init(p) in home && home[Init(p)] == HomeDirectory)
  }

  ghost predicate IsHome(home: Home) {
    forall p {:trigger PlaceSound(home, p)} | p in home :: PlaceSound(home, p)
  }

  const DATABASE := "bazilion.db"
  const AUTH := "auth.json"

  // The filter

  predicate IsQmdIndex(path: string) {
    var parts := Split(path, '/');
    && |parts| >= 4 && parts[0] == "teams" && parts[1] != "" && parts[2] == "memory"
    && StartsWith(parts[3], ".qmd-index.sqlite")
  }

  predicate Excluded(normalized: string) {
    || normalized == DATABASE || StartsWith(normalized, "bazilion.db-")
    || normalized == "daemon-runtime.json" || StartsWith(normalized, "daemon-runtime.json.reclaim-")
    || IsQmdIndex(normalized)
    || normalized == "browsers" || StartsWith(normalized, "browsers/")
  }

  /** What the archiver calls a place. */
  function PathTo(p: Place): string {
    "./" + Join(p, '/')
  }

  predicate Filter(path: string) {
    var portable := Portable(path);
    !Excluded(if StartsWith(portable, "./") then portable[2..] else portable)
  }

  /** A directory that is filtered out takes everything in it along. */
  ghost predicate Archived(home: Home, p: Place) {
    p in home && forall i {:trigger p[..i]} | 1 <= i <= |p| :: Filter(PathTo(p[..i]))
  }

  // The archive

  /** The order in which the archiver came to the places it kept. */
  ghost predicate Walks(home: Home, order: seq<Place>) {
    && (forall p {:trigger Archived(home, p)} :: p in order <==> Archived(home, p))
    && (forall i, j | 0 <= i < j < |order| :: order[i] != order[j])
  }

  predicate SecondName(home: Home, order: seq<Place>, k: nat)
    requires k < |order|
  {
    && order[k] in home && home[order[k]].HomeFile?
    && exists j ::
         0 <= j < k && order[j] in home && home[order[j]].HomeFile? && home[order[j]].inode == home[order[k]].inode
  }

  /** A file met again under another name is written as a hard link. */
  function KindOf(home: Home, order: seq<Place>, k: nat): EntryType
    requires k < |order| && order[k] in home
  {
    match home[order[k]]
    case HomeDirectory => Directory
    case HomeLink(_) => SymbolicLink
    case HomeFile(_, _) => if SecondName(home, order, k) then Other("Link") else File
  }

  function TargetOf(n: HomeNode): Option<string> {
    if n.HomeLink? then Some(n.target) else None
  }

  function BodyOf(n: HomeNode): nat {
    if n.HomeFile? then n.body else 0
  }

  function EntryFor(home: Home, order: seq<Place>, k: nat): RawEntry
    requires k < |order| && order[k] in home
  {
    var n := home[order[k]];
    RawEntry(false, Entry(PathTo(order[k]) + if n == HomeDirectory then "/" else "",
                          KindOf(home, order, k), TargetOf(n), BodyOf(n)))
  }

  function Root(): RawEntry {
    RawEntry(false, Entry("./", Directory, None, 0))
  }

  function Entries(home: Home, order: seq<Place>, n: nat): seq<RawEntry>
    requires n <= |order| && forall p | p in order :: p in home
  {
    if n == 0 then [Root()]
    else Entries(home, order, n - 1) + [EntryFor(home, order, n - 1)]
  }

  /** The home, and then the snapshot of its database under the database's own name. */
  function CreateBackupArchive(home: Home, order: seq<Place>, snapshot: nat): seq<RawEntry>
    requires forall p | p in order :: p in home
  {
    Entries(home, order, |order|) + [RawEntry(false, Entry("./" + DATABASE, File, None, snapshot))]
  }

  // Paths in and out

  lemma {:induction false} SplitOfPath(p: Place, tail: string)
    requires p != [] && (forall s | s in p :: '/' !in s) && (tail == "" || tail == "/")
    ensures Split(PathTo(p) + tail, '/') == ["."] + p + if tail == "" then [] else [""]
  {
    var rest := Join(p, '/') + tail;
    assert PathTo(p) + tail == "." + ['/'] + rest;
    SplitAt(".", rest, '/');
    if tail == "" {
      SplitOfJoin(p, '/');
      assert rest == Join(p, '/');
    } else {
      SplitOfDirectory(p, "");
      SplitWhole("", '/');
      assert Join(p, '/') + "/" + "" == rest;
    }
  }

  lemma KeepSplits(a: seq<string>, b: seq<string>)
    ensures Keep(a + b) == Keep(a) + Keep(b)
  {
    if b == [] {
      assert a + b == a;
    } else {
      assert (a + b)[..|a + b| - 1] == a + b[..|b| - 1];
      KeepSplits(a, b[..|b| - 1]);
    }
  }

  lemma PathBack(p: Place, tail: string)
    requires p != [] && (forall s | s in p :: IsFileName(s)) && (tail == "" || tail == "/")
    ensures Normal(PathTo(p) + tail) == Join(p, '/')
    ensures ".." !in Split(PathTo(p) + tail, '/')
  {
    assert forall s | s in p :: '/' !in s && Kept(s);
    SplitOfPath(p, tail);
    KeepPath(p, if tail == "" then [] else [""]);
  }

  lemma KeepPath(p: Place, end: seq<string>)
    requires (forall s | s in p :: Kept(s)) && (end == [] || end == [""])
    ensures Keep(["."] + p + end) == p
  {
    KeepAll(p);
    KeepSplits(["."], p);
    KeepSplits(["."] + p, end);
    KeepNothing(".");
    KeepNothing("");
    assert Keep(["."] + p) == [] + p == p;
    assert Keep(end) == [];
  }

  lemma KeepNothing(s: string)
    requires !Kept(s)
    ensures Keep([s]) == []
  {
    assert [s][..0] == [];
  }

  predicate NoBackslash(p: Place) {
    forall s | s in p :: '\\' !in s
  }

  lemma {:induction false} BackslashInJoin(p: Place)
    ensures '\\' !in Join(p, '/') <==> NoBackslash(p)
  {
    if |p| == 1 {
      assert p[0] in p;
    } else if |p| > 1 {
      BackslashInJoin(p[1..]);
      assert p == [p[0]] + p[1..];
      assert Join(p, '/') == p[0] + ['/'] + Join(p[1..], '/');
    }
  }

  lemma PathAccepted(p: Place, tail: string)
    requires p != [] && (forall s | s in p :: IsFileName(s)) && (tail == "" || tail == "/")
    ensures PathOk(PathTo(p) + tail) <==> NoBackslash(p)
  {
    var raw := PathTo(p) + tail;
    PathBack(p, tail);
    BackslashInJoin(p);
    assert '\\' in raw <==> '\\' in Join(p, '/') by {
      assert raw == "./" + Join(p, '/') + tail;
    }
    assert forall s | s in p :: NUL !in s;
    JoinKeepsOut(p, '/', NUL);
    assert NUL !in raw by {
      assert raw == "./" + Join(p, '/') + tail;
    }
    assert raw[0] == '.' && raw[1] == '/';
  }

  lemma JoinInjective(p: Place, q: Place)
    requires p != [] && q != [] && (forall s | s in p :: '/' !in s) && (forall s | s in q :: '/' !in s)
    requires Join(p, '/') == Join(q, '/')
    ensures p == q
  {
    SplitOfJoin(p, '/');
    SplitOfJoin(q, '/');
  }

  // What the archive lists

  function Clean(home: Home, order: seq<Place>, k: nat): Entry
    requires k < |order| && order[k] in home
  {
    var n := home[order[k]];
    Entry(Join(order[k], '/'), KindOf(home, order, k), TargetOf(n), BodyOf(n))
  }

  function CleanEntries(home: Home, order: seq<Place>, n: nat): (r: seq<Entry>)
    requires n <= |order| && forall p | p in order :: p in home
    ensures |r| == n
  {
    if n == 0 then [] else CleanEntries(home, order, n - 1) + [Clean(home, order, n - 1)]
  }

  function Snapshot(snapshot: nat): Entry {
    Entry(DATABASE, File, None, snapshot)
  }

  function Contents(home: Home, order: seq<Place>, snapshot: nat): seq<Entry>
    requires forall p | p in order :: p in home
  {
    CleanEntries(home, order, |order|) + [Snapshot(snapshot)]
  }

  lemma {:induction false} CleanAt(home: Home, order: seq<Place>, n: nat, k: nat)
    requires k < n <= |order| && forall p | p in order :: p in home
    ensures CleanEntries(home, order, n)[k] == Clean(home, order, k)
  {
    if k < n - 1 { CleanAt(home, order, n - 1, k); }
  }

  ghost predicate Ready(home: Home, order: seq<Place>) {
    IsHome(home) && Walks(home, order)
  }

  lemma PlacesKnown(home: Home, order: seq<Place>)
    requires Ready(home, order)
    ensures forall p | p in order :: p in home && p != [] && forall s | s in p :: IsFileName(s)
  {
    forall p | p in order ensures p in home && p != [] && forall s | s in p :: IsFileName(s) {
      assert Archived(home, p) && PlaceSound(home, p);
    }
  }

  lemma ListedMore(raws: seq<RawEntry>, raw: RawEntry)
    requires !raw.meta
    ensures Listed(raws + [raw])
            == Listed(raws) + if Normal(raw.entry.path) == "" then [] else [raw.entry.(path := Normal(raw.entry.path))]
  {
    assert (raws + [raw])[..|raws + [raw]| - 1] == raws;
  }

  lemma ListedRoot()
    ensures Listed([Root()]) == []
  {
    RootIsNothing();
    ListedMore([], Root());
    assert [] + [Root()] == [Root()];
  }

  lemma {:induction false} ListedClean(home: Home, order: seq<Place>, n: nat)
    requires Ready(home, order) && n <= |order| && forall p | p in order :: p in home
    ensures Listed(Entries(home, order, n)) == CleanEntries(home, order, n)
  {
    if n == 0 {
      ListedRoot();
    } else {
      ListedClean(home, order, n - 1);
      ListedMore(Entries(home, order, n - 1), EntryFor(home, order, n - 1));
      ListedAs(home, order, n - 1);
    }
  }

  lemma ListedAs(home: Home, order: seq<Place>, k: nat)
    requires Ready(home, order) && k < |order| && forall p | p in order :: p in home
    ensures var path := Normal(EntryFor(home, order, k).entry.path);
            path != "" && EntryFor(home, order, k).entry.(path := path) == Clean(home, order, k)
  {
    PlacesKnown(home, order);
    var p := order[k];
    assert p in order;
    PathBack(p, if home[p] == HomeDirectory then "/" else "");
    JoinNotEmpty(p);
  }

  lemma JoinNotEmpty(p: Place)
    requires p != [] && forall s | s in p :: s != ""
    ensures Join(p, '/') != ""
  {
    assert p[0] in p;
  }

  lemma RootIsNothing()
    ensures PathOk(Root().entry.path) && Normal(Root().entry.path) == ""
  {
    SplitAt(".", "", '/');
    SplitWhole("", '/');
    assert "." + ['/'] + "" == "./";
    assert Split("./", '/') == [".", ""];
    assert [".", ""][..1] == ["."] && ["."][..0] == [];
    assert Keep([".", ""]) == Keep(["."]) + [];
  }

  lemma DatabasePath()
    ensures PathOk("./" + DATABASE) && Normal("./" + DATABASE) == DATABASE
  {
    assert PathTo([DATABASE]) + "" == "./" + DATABASE;
    PathBack([DATABASE], "");
    PathAccepted([DATABASE], "");
  }

  lemma ListedIs(home: Home, order: seq<Place>, snapshot: nat)
    requires Ready(home, order) && forall p | p in order :: p in home
    ensures Listed(CreateBackupArchive(home, order, snapshot)) == Contents(home, order, snapshot)
  {
    ListedClean(home, order, |order|);
    DatabasePath();
    ListedMore(Entries(home, order, |order|), RawEntry(false, Entry("./" + DATABASE, File, None, snapshot)));
  }

  // When it is accepted

  ghost predicate NodeFit(hostAbsolute: string -> bool, home: Home, p: Place)
    requires p in home
  {
    NoBackslash(p)
    && (home[p].HomeLink? ==> ValidateArchiveSymbolicLink(hostAbsolute, Join(p, '/'), Some(home[p].target)) == None)
  }

  ghost predicate OneName(home: Home, p: Place, q: Place)
    requires p in home && q in home
  {
    p != q && home[p].HomeFile? && home[q].HomeFile? ==> home[p].inode != home[q].inode
  }

  /** A home whose backup can be restored. */
  ghost predicate Restorable(hostAbsolute: string -> bool, home: Home) {
    && (forall p {:trigger NodeFit(hostAbsolute, home, p)} | Archived(home, p) :: NodeFit(hostAbsolute, home, p))
    && (forall p, q {:trigger OneName(home, p, q)} | Archived(home, p) && Archived(home, q) :: OneName(home, p, q))
    && [AUTH] in home && home[[AUTH]].HomeFile?
  }

  lemma {:induction false} EntryAccepted(hostAbsolute: string -> bool, home: Home, order: seq<Place>, k: nat)
    requires Ready(home, order) && k < |order| && forall p | p in order :: p in home
    ensures EntryOk(hostAbsolute, EntryFor(home, order, k))
            <==> NodeFit(hostAbsolute, home, order[k]) && !SecondName(home, order, k)
  {
    PlacesKnown(home, order);
    var p := order[k];
    assert p in order;
    var tail := if home[p] == HomeDirectory then "/" else "";
    PathBack(p, tail);
    PathAccepted(p, tail);
    JoinNotEmpty(p);
  }

  lemma {:induction false} EntriesAre(home: Home, order: seq<Place>, n: nat, raw: RawEntry)
    requires n <= |order| && forall p | p in order :: p in home
    ensures raw in Entries(home, order, n)
            <==> raw == Root() || exists k :: 0 <= k < n && raw == EntryFor(home, order, k)
  {
    if n > 0 { EntriesAre(home, order, n - 1, raw); }
  }

  ghost predicate NoSecondNames(home: Home, order: seq<Place>) {
    forall k {:trigger SecondName(home, order, k)} | 0 <= k < |order| :: !SecondName(home, order, k)
  }

  ghost predicate AllFit(hostAbsolute: string -> bool, home: Home, order: seq<Place>)
    requires forall p | p in order :: p in home
  {
    forall k {:trigger NodeFit(hostAbsolute, home, order[k])} | 0 <= k < |order|
      :: NodeFit(hostAbsolute, home, order[k])
  }

  lemma EntriesAccepted(hostAbsolute: string -> bool, home: Home, order: seq<Place>, snapshot: nat)
    requires Ready(home, order) && forall p | p in order :: p in home
    ensures (forall raw | raw in CreateBackupArchive(home, order, snapshot) :: EntryOk(hostAbsolute, raw))
            <==> AllFit(hostAbsolute, home, order) && NoSecondNames(home, order)
  {
    var raws := CreateBackupArchive(home, order, snapshot);
    RootIsNothing();
    DatabasePath();
    if forall raw | raw in raws :: EntryOk(hostAbsolute, raw) {
      forall k | 0 <= k < |order| ensures NodeFit(hostAbsolute, home, order[k]) && !SecondName(home, order, k) {
        EntriesAre(home, order, |order|, EntryFor(home, order, k));
        assert EntryFor(home, order, k) in raws;
        EntryAccepted(hostAbsolute, home, order, k);
      }
    }
    if AllFit(hostAbsolute, home, order) && NoSecondNames(home, order) {
      forall raw | raw in raws ensures EntryOk(hostAbsolute, raw) {
        EntriesAre(home, order, |order|, raw);
        if k :| 0 <= k < |order| && raw == EntryFor(home, order, k) {
          EntryAccepted(hostAbsolute, home, order, k);
          assert NodeFit(hostAbsolute, home, order[k]) && !SecondName(home, order, k);
        }
      }
    }
  }

  lemma SecondNamesAre(home: Home, order: seq<Place>)
    requires Ready(home, order)
    ensures NoSecondNames(home, order)
            <==> forall p, q {:trigger OneName(home, p, q)} | Archived(home, p) && Archived(home, q)
                 :: OneName(home, p, q)
  {
    PlacesKnown(home, order);
    if NoSecondNames(home, order) {
      forall p, q | Archived(home, p) && Archived(home, q) ensures OneName(home, p, q) {
        assert p in order && q in order;
        var i :| 0 <= i < |order| && order[i] == p;
        var j :| 0 <= j < |order| && order[j] == q;
        assert !SecondName(home, order, i) && !SecondName(home, order, j);
      }
    } else {
      var k :| 0 <= k < |order| && SecondName(home, order, k);
      var j :| 0 <= j < k && order[j] in home && home[order[j]].HomeFile?
               && home[order[j]].inode == home[order[k]].inode;
      assert order[j] in order && order[k] in order;
      assert Archived(home, order[j]) && Archived(home, order[k]) && !OneName(home, order[j], order[k]);
    }
  }

  // The shape of what is listed

  lemma FilterIs(p: Place)
    requires NoBackslash(p)
    ensures Filter(PathTo(p)) <==> !Excluded(Join(p, '/'))
  {
    BackslashInJoin(p);
    var path := PathTo(p);
    assert '\\' !in path;
    assert Portable(path) == path;
    assert path[2..] == Join(p, '/');
  }

  /** What a backup leaves out, place by place. */
  predicate LeftOut(p: Place)
    requires p != []
  {
    || p == ["bazilion.db"] || "bazilion.db-" <= p[0]
    || p == ["daemon-runtime.json"] || "daemon-runtime.json.reclaim-" <= p[0]
    || p[0] == "browsers"
    || (|p| >= 4 && p[0] == "teams" && p[2] == "memory" && ".qmd-index.sqlite" <= p[3])
  }

  /** A prefix without a separator is one of the first name. */
  lemma {:induction false} PrefixOfFirst(p: Place, prefix: string)
    requires p != [] && '/' !in prefix
    ensures prefix <= Join(p, '/') <==> prefix <= p[0]
  {
    if |p| > 1 {
      var joined := Join(p, '/');
      assert joined == p[0] + (['/'] + Join(p[1..], '/')) && joined[|p[0]|] == '/';
      assert prefix <= joined ==> forall i | 0 <= i < |prefix| :: joined[i] == prefix[i] && prefix[i] in prefix;
    }
  }

  lemma JoinIsName(p: Place, name: string)
    requires p != [] && (forall s | s in p :: '/' !in s) && '/' !in name
    ensures Join(p, '/') == name <==> p == [name]
  {
    if Join(p, '/') == name {
      SplitOfJoin(p, '/');
      SplitWhole(name, '/');
    }
  }

  lemma {:induction false} BelowName(p: Place, name: string)
    requires p != [] && (forall s | s in p :: '/' !in s) && '/' !in name
    ensures Join(p, '/') == name || name + ['/'] <= Join(p, '/') <==> p[0] == name
  {
    var joined := Join(p, '/');
    SplitOfJoin(p, '/');
    JoinIsName(p, name);
    if name + ['/'] <= joined {
      SplitAt(name, joined[|name| + 1..], '/');
      assert joined == name + ['/'] + joined[|name| + 1..];
    }
    if |p| > 1 { assert joined == p[0] + ['/'] + Join(p[1..], '/'); }
  }

  lemma {:induction false} QmdIndexAt(p: Place)
    requires p != [] && forall s | s in p :: IsFileName(s)
    ensures IsQmdIndex(Join(p, '/')) <==>
            |p| >= 4 && p[0] == "teams" && p[2] == "memory" && ".qmd-index.sqlite" <= p[3]
  {
    assert forall s | s in p :: '/' !in s;
    SplitOfJoin(p, '/');
    if |p| >= 2 { assert p[1] in p; }
  }

  lemma {:induction false} ExcludedPlaces(p: Place, path: string)
    requires p != [] && (forall s | s in p :: IsFileName(s)) && path == Join(p, '/')
    ensures Excluded(path) <==> LeftOut(p)
  {
    assert forall s | s in p :: '/' !in s;
    JoinIsName(p, "bazilion.db");
    JoinIsName(p, "daemon-runtime.json");
    PrefixOfFirst(p, "bazilion.db-");
    PrefixOfFirst(p, "daemon-runtime.json.reclaim-");
    assert "browsers" + ['/'] == "browsers/";
    BelowName(p, "browsers");
    QmdIndexAt(p);
  }

  /** Of portable places, the filter leaves out just these. */
  lemma {:induction false} FilteredPlaces(p: Place)
    requires p != [] && NoBackslash(p) && forall s | s in p :: IsFileName(s)
    ensures Filter(PathTo(p)) <==> !LeftOut(p)
  {
    FilterIs(p);
    ExcludedPlaces(p, Join(p, '/'));
  }

  lemma CleanPath(home: Home, order: seq<Place>, k: nat)
    requires Ready(home, order) && k < |order| && (forall p | p in order :: p in home) && NoBackslash(order[k])
    ensures var path := Clean(home, order, k).path;
            Split(path, '/') == order[k] && !Excluded(path)
  {
    PlacesKnown(home, order);
    var p := order[k];
    assert p in order && Archived(home, p) && PlaceSound(home, p);
    assert p[..|p|] == p;
    FilterIs(p);
    assert forall s | s in p :: '/' !in s;
    SplitOfJoin(p, '/');
  }

  lemma PrefixInHome(home: Home, p: Place, i: nat)
    requires IsHome(home) && p in home && 1 <= i < |p|
    ensures p[..i] in home && home[p[..i]] == HomeDirectory
    decreases |p|
  {
    assert PlaceSound(home, p);
    if i < |p| - 1 {
      PrefixInHome(home, Init(p), i);
      assert Init(p)[..i] == p[..i];
    } else {
      assert p[..i] == Init(p);
    }
  }

  lemma CleanSupported(home: Home, order: seq<Place>, snapshot: nat, k: nat)
    requires Ready(home, order) && k < |order| && (forall p | p in order :: p in home && NoBackslash(p))
    ensures Supported(Contents(home, order, snapshot), Clean(home, order, k))
  {
    var es := Contents(home, order, snapshot);
    var p := order[k];
    CleanPath(home, order, k);
    assert Archived(home, p) by { assert p in order; }
    forall i | 1 <= i < |p| ensures OnlyDirectoryAt(es, Ancestor(Clean(home, order, k).path, i)) {
      PrefixInHome(home, p, i);
      forall a | a in es && a.path == Join(p[..i], '/') ensures a.kind == Directory {
        var m :| 0 <= m < |es| && es[m] == a;
        if m < |order| {
          CleanAt(home, order, |order|, m);
          CleanPath(home, order, m);
          assert forall s | s in p[..i] :: s in p;
          PlacesKnown(home, order);
          assert p in order;
          SplitOfJoin(p[..i], '/');
        } else {
          assert Filter(PathTo(p[..i]));
          assert NoBackslash(p[..i]) by { assert forall s | s in p[..i] :: s in p; assert p in order; }
          FilterIs(p[..i]);
        }
      }
    }
  }

  lemma CleanDistinct(home: Home, order: seq<Place>, snapshot: nat)
    requires Ready(home, order) && (forall p | p in order :: p in home && NoBackslash(p))
    ensures Distinct(Contents(home, order, snapshot))
  {
    var es := Contents(home, order, snapshot);
    forall i, j | 0 <= i < j < |es| ensures es[i].path != es[j].path {
      CleanAt(home, order, |order|, i);
      assert order[i] in order;
      CleanPath(home, order, i);
      if j < |order| {
        CleanAt(home, order, |order|, j);
        assert order[j] in order;
        CleanPath(home, order, j);
      }
    }
  }

  /** Whatever is listed is the snapshot, or some place of the home that was not filtered out. */
  lemma {:induction false} CleanShape(home: Home, order: seq<Place>, snapshot: nat, e: Entry)
    requires Ready(home, order) && (forall p | p in order :: p in home && NoBackslash(p))
    requires e in Contents(home, order, snapshot)
    ensures e == Snapshot(snapshot) || !Excluded(e.path)
    ensures Supported(Contents(home, order, snapshot), e)
  {
    var es := Contents(home, order, snapshot);
    var m :| 0 <= m < |es| && es[m] == e;
    if m < |order| {
      CleanAt(home, order, |order|, m);
      assert order[m] in order;
      CleanPath(home, order, m);
      CleanSupported(home, order, snapshot, m);
    } else {
      SplitWhole(DATABASE, '/');
    }
  }

  lemma AloneIsArchived(home: Home, name: string)
    requires [name] in home && name != "" && name[0] == 'a' && '/' !in name && '\\' !in name
    ensures Archived(home, [name])
  {
    SplitWhole(name, '/');
    FilterIs([name]);
    assert Join([name], '/') == name;
    assert !Excluded(name);
    assert [name][..1] == [name];
  }

  lemma AuthIsArchived(home: Home)
    requires [AUTH] in home
    ensures Archived(home, [AUTH])
  {
    AloneIsArchived(home, AUTH);
  }

  lemma AuthFromList(home: Home, order: seq<Place>, snapshot: nat)
    requires Ready(home, order) && (forall p | p in order :: p in home && NoBackslash(p))
    requires HasFile(Contents(home, order, snapshot), AUTH)
    ensures [AUTH] in home && home[[AUTH]].HomeFile?
  {
    var es := Contents(home, order, snapshot);
    var e :| e in es && e.path == AUTH && (e.kind == File || e.kind == OldFile);
    var m :| 0 <= m < |es| && es[m] == e;
    CleanAt(home, order, |order|, m);
    assert order[m] in order;
    PlacesKnown(home, order);
    assert forall s | s in order[m] :: '/' !in s;
    assert Join([AUTH], '/') == AUTH;
    JoinInjective(order[m], [AUTH]);
  }

  lemma AuthToList(home: Home, order: seq<Place>, snapshot: nat)
    requires Ready(home, order) && (forall p | p in order :: p in home && NoBackslash(p)) && NoSecondNames(home, order)
    requires [AUTH] in home && home[[AUTH]].HomeFile?
    ensures HasFile(Contents(home, order, snapshot), AUTH)
  {
    var es := Contents(home, order, snapshot);
    AuthIsArchived(home);
    var k :| 0 <= k < |order| && order[k] == [AUTH];
    CleanAt(home, order, |order|, k);
    assert !SecondName(home, order, k);
    assert Join([AUTH], '/') == AUTH;
    assert es[k] in es && es[k].path == AUTH && es[k].kind == File;
  }

  lemma DatabaseAllowed()
    ensures !InBrowsers(DATABASE) && DATABASE !in TRANSIENT
  {
    assert DATABASE[1] == 'a' && "browsers/"[1] == 'r';
  }

  lemma {:induction false} NothingForbidden(home: Home, order: seq<Place>, snapshot: nat)
    requires Ready(home, order) && (forall p | p in order :: p in home && NoBackslash(p))
    ensures forall e | e in Contents(home, order, snapshot) :: Supported(Contents(home, order, snapshot), e)
    ensures forall e | e in Contents(home, order, snapshot) :: !InBrowsers(e.path) && e.path !in TRANSIENT
  {
    var es := Contents(home, order, snapshot);
    forall e | e in es ensures Supported(es, e) && !InBrowsers(e.path) && e.path !in TRANSIENT {
      CleanShape(home, order, snapshot, e);
      DatabaseAllowed();
    }
  }

  lemma CleanShapeOk(home: Home, order: seq<Place>, snapshot: nat)
    requires Ready(home, order) && (forall p | p in order :: p in home && NoBackslash(p)) && NoSecondNames(home, order)
    ensures ShapeOk(Contents(home, order, snapshot)) <==> [AUTH] in home && home[[AUTH]].HomeFile?
  {
    var es := Contents(home, order, snapshot);
    CleanDistinct(home, order, snapshot);
    NothingForbidden(home, order, snapshot);
    assert HasFile(es, DATABASE) by { assert Snapshot(snapshot) in es; }
    assert REQUIRED == [DATABASE, AUTH];
    if [AUTH] in home && home[[AUTH]].HomeFile? {
      AuthToList(home, order, snapshot);
    } else if ShapeOk(es) {
      assert AUTH in REQUIRED;
      AuthFromList(home, order, snapshot);
    }
  }

  /** A restore accepts the backup of a home exactly when the home is restorable. */
  lemma AcceptedExactlyWhenRestorable(hostAbsolute: string -> bool, home: Home, order: seq<Place>, snapshot: nat)
    requires IsHome(home) && Walks(home, order) && forall p | p in order :: p in home
    ensures (forall raw | raw in CreateBackupArchive(home, order, snapshot) :: EntryOk(hostAbsolute, raw))
            && ShapeOk(Listed(CreateBackupArchive(home, order, snapshot)))
            <==> Restorable(hostAbsolute, home)
  {
    EntriesAccepted(hostAbsolute, home, order, snapshot);
    SecondNamesAre(home, order);
    ListedIs(home, order, snapshot);
    AllFitIs(hostAbsolute, home, order);
    if AllFit(hostAbsolute, home, order) && NoSecondNames(home, order) {
      forall p | p in order ensures NoBackslash(p) {
        var k :| 0 <= k < |order| && order[k] == p;
        assert NodeFit(hostAbsolute, home, order[k]);
      }
      CleanShapeOk(home, order, snapshot);
    }
  }

  lemma AllFitIs(hostAbsolute: string -> bool, home: Home, order: seq<Place>)
    requires Ready(home, order) && forall p | p in order :: p in home
    ensures AllFit(hostAbsolute, home, order)
            <==> forall p {:trigger NodeFit(hostAbsolute, home, p)} | Archived(home, p)
                 :: NodeFit(hostAbsolute, home, p)
  {
    if AllFit(hostAbsolute, home, order) {
      forall p | Archived(home, p) ensures NodeFit(hostAbsolute, home, p) {
        assert p in order;
        var k :| 0 <= k < |order| && order[k] == p;
        assert NodeFit(hostAbsolute, home, order[k]);
      }
    }
    if forall p {:trigger NodeFit(hostAbsolute, home, p)} | Archived(home, p) :: NodeFit(hostAbsolute, home, p) {
      forall k | 0 <= k < |order| ensures NodeFit(hostAbsolute, home, order[k]) {
        assert order[k] in order && Archived(home, order[k]);
      }
    }
  }

  // There and back

  function Restored(n: HomeNode): Node {
    match n
    case HomeDirectory => Dir
    case HomeFile(_, body) => Regular(body)
    case HomeLink(target) => Link(target)
  }

  /** What was archived of the home, and the snapshot for its database. */
  ghost predicate IsRestoredHome(t: Tree, home: Home, snapshot: nat) {
    && (forall p :: p in t <==> Archived(home, p) || p == [DATABASE])
    && (forall p | p in t :: t[p] == if p == [DATABASE] then Regular(snapshot) else Restored(home[p]))
  }

  lemma DatabaseNotArchived(home: Home)
    ensures !Archived(home, [DATABASE])
  {
    FilterIs([DATABASE]);
    assert [DATABASE][..1] == [DATABASE];
    assert !Filter(PathTo([DATABASE][..1]));
  }

  lemma PrefixArchived(home: Home, p: Place, q: Place)
    requires IsHome(home) && Archived(home, p) && q <= p && q != []
    ensures Archived(home, q)
  {
    if q != p {
      PrefixInHome(home, p, |q|);
      assert p[..|q|] == q;
      forall i | 1 <= i <= |q| ensures Filter(PathTo(q[..i])) { assert q[..i] == p[..i]; }
    }
  }

  lemma RestoredAt(home: Home, order: seq<Place>, snapshot: nat, t: Tree, p: Place)
    requires Ready(home, order) && (forall p | p in order :: p in home && NoBackslash(p)) && NoSecondNames(home, order)
    requires Holds(t, Contents(home, order, snapshot))
    requires Archived(home, p)
    ensures p in t && t[p] == Restored(home[p])
  {
    var es := Contents(home, order, snapshot);
    var k :| 0 <= k < |order| && order[k] == p;
    CleanAt(home, order, |order|, k);
    CleanPath(home, order, k);
    assert es[k] in es && At(t, es[k]);
    assert !SecondName(home, order, k);
  }

  lemma OnlyItself(p: Place, e: Entry)
    requires '/' !in e.path && OnTheWay(p, e)
    ensures p == [e.path]
  {
    SplitWhole(e.path, '/');
    assert p == [e.path][..|p|];
  }

  lemma {:induction false} CoveredIsArchived(home: Home, order: seq<Place>, last: Entry, p: Place)
    requires Ready(home, order) && (forall p | p in order :: p in home && NoBackslash(p)) && '/' !in last.path
    requires Covered(CleanEntries(home, order, |order|) + [last], p)
    ensures Archived(home, p) || p == [last.path]
  {
    var es := CleanEntries(home, order, |order|) + [last];
    var e :| e in es && OnTheWay(p, e);
    var m :| 0 <= m < |es| && es[m] == e;
    if m < |order| {
      CleanAt(home, order, |order|, m);
      assert order[m] in order && Archived(home, order[m]);
      CleanPath(home, order, m);
      PrefixArchived(home, order[m], p);
    } else {
      OnlyItself(p, e);
    }
  }

  /** Backing a restorable home up and unpacking the archive, in any order, gives the home back. */
  lemma {:induction false} BackupRoundTrip(
    hostAbsolute: string -> bool, home: Home, order: seq<Place>, snapshot: nat, unpacked: seq<Entry>)
    requires IsHome(home) && Walks(home, order) && (forall p | p in order :: p in home)
             && Restorable(hostAbsolute, home)
    requires multiset(unpacked) == multiset(Listed(CreateBackupArchive(home, order, snapshot)))
    ensures Extract(unpacked).Done? && IsRestoredHome(Extract(unpacked).tree, home, snapshot)
  {
    var raws := CreateBackupArchive(home, order, snapshot);
    AcceptedExactlyWhenRestorable(hostAbsolute, home, order, snapshot);
    AcceptedExtractsInAnyOrder(hostAbsolute, raws, unpacked);
    SecondNamesAre(home, order);
    ListedIs(home, order, snapshot);
    forall p | p in order ensures NoBackslash(p) {
      assert Archived(home, p) && NodeFit(hostAbsolute, home, p);
    }
    TreeIsTheHome(home, order, snapshot, Extract(unpacked).tree);
  }

  lemma TreeIsTheHome(home: Home, order: seq<Place>, snapshot: nat, t: Tree)
    requires Ready(home, order) && (forall p | p in order :: p in home && NoBackslash(p)) && NoSecondNames(home, order)
    requires Holds(t, Contents(home, order, snapshot))
    ensures IsRestoredHome(t, home, snapshot)
  {
    DatabaseNotArchived(home);
    DatabaseRestored(home, order, snapshot, t);
    forall p ensures p in t <==> Archived(home, p) || p == [DATABASE] {
      if Archived(home, p) {
        RestoredAt(home, order, snapshot, t, p);
      } else if p in t {
        assert Accounted(t, Contents(home, order, snapshot), p);
        CoveredIsArchived(home, order, Snapshot(snapshot), p);
      }
    }
    forall p | p in t ensures t[p] == if p == [DATABASE] then Regular(snapshot) else Restored(home[p]) {
      if p != [DATABASE] { RestoredAt(home, order, snapshot, t, p); }
    }
  }

  lemma DatabaseRestored(home: Home, order: seq<Place>, snapshot: nat, t: Tree)
    requires (forall p | p in order :: p in home) && Holds(t, Contents(home, order, snapshot))
    ensures [DATABASE] in t && t[[DATABASE]] == Regular(snapshot)
  {
    var es := Contents(home, order, snapshot);
    SplitWhole(DATABASE, '/');
    assert es[|es| - 1] == Snapshot(snapshot);
    assert At(t, Snapshot(snapshot));
  }
}
