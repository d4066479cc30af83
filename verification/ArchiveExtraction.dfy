/**
 Unpacking an accepted archive: entry by entry into an empty directory, making the directories an
 entry needs, and stopping wherever an entry would go through a link or a file or meet something
 that is already there.
 */
module ArchiveExtraction {
  import opened Text
  import opened Wrappers
  import opened ArchiveShape

  type Place = seq<string>

  datatype Node = Dir | Regular(body: nat) | Link(target: string)

  /** What lies where below the root. */
  type Tree = map<Place, Node>

  datatype Result = Done(tree: Tree) | Stuck

  function PlaceOf(e: Entry): Place {
    Split(e.path, '/')
  }

  function NodeOf(e: Entry): Node {
    match e.kind
    case Directory => Dir
    case SymbolicLink => Link(ValueOr(e.linkpath, ""))
    case _ => Regular(e.body)
  }

  /** The first `i` directories on the way to a place. */
  function MakeDirectories(t: Tree, place: Place, i: nat): Result
    requires i <= |place|
  {
    if i == 0 then Done(t)
    else
      match MakeDirectories(t, place, i - 1)
      case Stuck => Stuck
      case Done(u) =>
        if place[..i] !in u then Done(u[place[..i] := Dir])
        else if u[place[..i]] == Dir then Done(u)
        else Stuck
  }

  function Unpack(t: Tree, e: Entry): Result {
    var place := PlaceOf(e);
    match MakeDirectories(t, place, |place| - 1)
    case Stuck => Stuck
    case Done(u) =>
      if place !in u then Done(u[place := NodeOf(e)])
      else if u[place] == Dir && e.kind == Directory then Done(u)
      else Stuck
  }

  function Extract(es: seq<Entry>): Result {
    if es == [] then Done(map[])
    else
      match Extract(es[..|es| - 1])
      case Stuck => Stuck
      case Done(t) => Unpack(t, es[|es| - 1])
  }

  // What a tree unpacked from given entries is, whatever their order

  predicate OnTheWay(p: Place, e: Entry) {
    p != [] && p <= PlaceOf(e)
  }

  ghost predicate Covered(es: seq<Entry>, p: Place) {
    exists e :: e in es && OnTheWay(p, e)
  }

  ghost predicate ListedAt(es: seq<Entry>, p: Place) {
    exists e :: e in es && PlaceOf(e) == p
  }

  predicate At(t: Tree, e: Entry) {
    PlaceOf(e) in t && t[PlaceOf(e)] == NodeOf(e)
  }

  /** Something is here exactly when it is on the way to an entry; between entries, directories. */
  ghost predicate Accounted(t: Tree, es: seq<Entry>, p: Place) {
    (p in t <==> Covered(es, p)) && (p in t ==> ListedAt(es, p) || t[p] == Dir)
  }

  /** Every entry at its own place, directories above them, and nothing else. */
  ghost predicate Holds(t: Tree, es: seq<Entry>) {
    && (forall p {:trigger Accounted(t, es, p)} :: Accounted(t, es, p))
    && (forall e {:trigger At(t, e)} | e in es :: At(t, e))
  }

  lemma OneTree(t: Tree, u: Tree, es: seq<Entry>)
    requires Holds(t, es) && Holds(u, es)
    ensures t == u
  {
    forall p ensures (p in t <==> p in u) && (p in t ==> t[p] == u[p]) {
      assert Accounted(t, es, p) && Accounted(u, es, p);
      if ListedAt(es, p) {
        var e :| e in es && PlaceOf(e) == p;
        assert At(t, e) && At(u, e);
      }
    }
  }

  lemma SameEntriesSameTree(t: Tree, es: seq<Entry>, fs: seq<Entry>)
    requires Holds(t, es) && forall e :: e in es <==> e in fs
    ensures Holds(t, fs)
  {
    forall p ensures Accounted(t, fs, p) {
      assert Accounted(t, es, p);
      SameCover(es, fs, p);
    }
    forall e | e in fs ensures At(t, e) { assert e in es; }
  }

  lemma SameCover(es: seq<Entry>, fs: seq<Entry>, p: Place)
    requires forall e :: e in es <==> e in fs
    ensures Covered(es, p) == Covered(fs, p) && ListedAt(es, p) == ListedAt(fs, p)
  {
    if Covered(es, p) { var e :| e in es && OnTheWay(p, e); assert e in fs; }
    if Covered(fs, p) { var e :| e in fs && OnTheWay(p, e); assert e in es; }
    if ListedAt(es, p) { var e :| e in es && PlaceOf(e) == p; assert e in fs; }
    if ListedAt(fs, p) { var e :| e in fs && PlaceOf(e) == p; assert e in es; }
  }

  /** Two entries are never at one place, and only a directory is above another entry. */
  predicate Compatible(a: Entry, b: Entry) {
    PlaceOf(a) != PlaceOf(b) && (PlaceOf(a) < PlaceOf(b) ==> a.kind == Directory)
  }

  ghost predicate Fits(es: seq<Entry>) {
    && (forall e | e in es :: multiset(es)[e] == 1)
    && forall a, b | a in es && b in es && a != b :: Compatible(a, b)
  }

  lemma MakeDirectoriesAdds(t: Tree, place: Place, i: nat)
    requires i <= |place| && forall j | 1 <= j <= i && place[..j] in t :: t[place[..j]] == Dir
    ensures var r := MakeDirectories(t, place, i);
            && r.Done?
            && (forall p :: p in r.tree <==> p in t || (1 <= |p| <= i && p == place[..|p|]))
            && (forall p | p in r.tree :: r.tree[p] == if p in t then t[p] else Dir)
  {
    if i > 0 {
      MakeDirectoriesAdds(t, place, i - 1);
    }
  }

  lemma WayIsClear(t: Tree, es: seq<Entry>, e: Entry)
    requires Holds(t, es) && e !in es && forall a | a in es :: Compatible(a, e)
    ensures forall j | 1 <= j < |PlaceOf(e)| && PlaceOf(e)[..j] in t :: t[PlaceOf(e)[..j]] == Dir
  {
    var place := PlaceOf(e);
    forall j | 1 <= j < |place| && place[..j] in t ensures t[place[..j]] == Dir {
      assert Accounted(t, es, place[..j]);
      if ListedAt(es, place[..j]) {
        var a :| a in es && PlaceOf(a) == place[..j];
        assert Compatible(a, e) && At(t, a);
      }
    }
  }

  lemma PlaceIsFree(t: Tree, es: seq<Entry>, e: Entry)
    requires Holds(t, es) && e !in es && PlaceOf(e) in t
    requires forall a | a in es :: Compatible(a, e) && Compatible(e, a)
    ensures t[PlaceOf(e)] == Dir && e.kind == Directory
  {
    forall a | a in es ensures PlaceOf(a) != PlaceOf(e) { assert Compatible(a, e); }
    assert Accounted(t, es, PlaceOf(e));
    var a :| a in es && OnTheWay(PlaceOf(e), a);
    assert Compatible(e, a);
  }

  lemma OnTheWayIs(p: Place, e: Entry)
    ensures OnTheWay(p, e) <==> p == PlaceOf(e) || (1 <= |p| <= |PlaceOf(e)| - 1 && p == PlaceOf(e)[..|p|])
  {
    var place := PlaceOf(e);
    if OnTheWay(p, e) { assert p == place[..|p|]; }
    if 1 <= |p| <= |place| - 1 && p == place[..|p|] { assert p <= place; }
  }

  ghost predicate AddedAt(t: Tree, u: Tree, e: Entry, p: Place) {
    && (p in u <==> p in t || OnTheWay(p, e))
    && (p in u ==> u[p] == if p == PlaceOf(e) then NodeOf(e) else if p in t then t[p] else Dir)
  }

  /** What one entry adds. */
  ghost predicate Adds(t: Tree, u: Tree, e: Entry) {
    forall p {:trigger AddedAt(t, u, e, p)} :: AddedAt(t, u, e, p)
  }

  lemma UnpackTree(t: Tree, e: Entry)
    requires forall j | 1 <= j < |PlaceOf(e)| && PlaceOf(e)[..j] in t :: t[PlaceOf(e)[..j]] == Dir
    requires PlaceOf(e) in t ==> t[PlaceOf(e)] == Dir && e.kind == Directory
    ensures Unpack(t, e).Done? && Adds(t, Unpack(t, e).tree, e)
  {
    var place := PlaceOf(e);
    MakeDirectoriesAdds(t, place, |place| - 1);
    forall p ensures AddedAt(t, Unpack(t, e).tree, e, p) {
      OnTheWayIs(p, e);
    }
  }

  lemma CoveredByMore(es: seq<Entry>, e: Entry, p: Place)
    ensures Covered(es + [e], p) <==> Covered(es, p) || OnTheWay(p, e)
  {
    if Covered(es, p) {
      var a :| a in es && OnTheWay(p, a);
      assert a in es + [e];
    }
    if OnTheWay(p, e) { assert e in es + [e]; }
    if Covered(es + [e], p) {
      var a :| a in es + [e] && OnTheWay(p, a);
      assert a == e || a in es;
    }
  }

  lemma UnpackAdds(t: Tree, es: seq<Entry>, e: Entry)
    requires Holds(t, es) && e !in es
    requires forall a | a in es :: Compatible(a, e) && Compatible(e, a)
    ensures Unpack(t, e).Done? && Holds(Unpack(t, e).tree, es + [e])
  {
    WayIsClear(t, es, e);
    if PlaceOf(e) in t { PlaceIsFree(t, es, e); }
    UnpackTree(t, e);
    AddsHolds(t, Unpack(t, e).tree, es, e);
  }

  lemma {:induction false} AddsHolds(t: Tree, u: Tree, es: seq<Entry>, e: Entry)
    requires Holds(t, es) && Adds(t, u, e) && forall a | a in es :: Compatible(a, e)
    ensures Holds(u, es + [e])
  {
    forall p ensures Accounted(u, es + [e], p) {
      assert Accounted(t, es, p) && AddedAt(t, u, e, p);
      CoveredByMore(es, e, p);
      StillListed(es, e, p);
    }
    forall a | a in es + [e] ensures At(u, a) {
      assert AddedAt(t, u, e, PlaceOf(a));
      if a in es {
        assert Compatible(a, e) && At(t, a);
      } else {
        assert OnTheWay(PlaceOf(e), e);
      }
    }
  }

  lemma StillListed(es: seq<Entry>, e: Entry, p: Place)
    ensures ListedAt(es, p) || PlaceOf(e) == p ==> ListedAt(es + [e], p)
  {
    if ListedAt(es, p) {
      var a :| a in es && PlaceOf(a) == p;
      assert a in es + [e];
    }
    assert e in es + [e];
  }

  lemma {:induction false} FitsExtracts(es: seq<Entry>)
    requires Fits(es)
    ensures Extract(es).Done? && Holds(Extract(es).tree, es)
  {
    if es != [] {
      var front, e := es[..|es| - 1], es[|es| - 1];
      assert es == front + [e];
      assert multiset(es) == multiset(front) + multiset{e};
      assert e in es && forall a | a in front :: a in es;
      assert e !in front;
      assert forall a | a in front :: multiset(front)[a] == 1;
      FitsExtracts(front);
      UnpackAdds(Extract(front).tree, front, e);
    }
  }

  /** Unpacking never goes through a link or a file, and the order of the entries does not matter. */
  lemma AnyOrder(es: seq<Entry>, fs: seq<Entry>)
    requires Fits(es) && multiset(fs) == multiset(es)
    ensures Extract(es).Done? && Extract(fs) == Extract(es)
  {
    assert forall e :: e in es <==> e in multiset(es);
    assert forall e :: e in fs <==> e in multiset(fs);
    FitsExtracts(es);
    FitsExtracts(fs);
    SameEntriesSameTree(Extract(fs).tree, fs, es);
    OneTree(Extract(es).tree, Extract(fs).tree, es);
  }

  // Accepted archives

  lemma CountedOnce(es: seq<Entry>, e: Entry)
    requires Distinct(es) && e in es
    ensures multiset(es)[e] == 1
  {
    var front, last := es[..|es| - 1], es[|es| - 1];
    assert es == front + [last];
    assert multiset(es) == multiset(front) + multiset{last};
    if last == e {
      assert e !in front;
    } else {
      CountedOnce(front, e);
    }
  }

  lemma PairFits(es: seq<Entry>, a: Entry, b: Entry)
    requires Distinct(es) && a in es && b in es && a != b && Supported(es, b)
    ensures Compatible(a, b)
  {
    JoinOfSplit(a.path, '/');
    JoinOfSplit(b.path, '/');
    assert a.path != b.path by {
      var i :| 0 <= i < |es| && es[i] == a;
      var j :| 0 <= j < |es| && es[j] == b;
    }
    if PlaceOf(a) < PlaceOf(b) {
      var i := |PlaceOf(a)|;
      assert PlaceOf(b)[..i] == PlaceOf(a);
      assert OnlyDirectoryAt(es, Ancestor(b.path, i));
    }
  }

  lemma ShapeFits(es: seq<Entry>)
    requires ShapeOk(es)
    ensures Fits(es)
  {
    forall e | e in es ensures multiset(es)[e] == 1 { CountedOnce(es, e); }
    forall a, b | a in es && b in es && a != b ensures Compatible(a, b) { PairFits(es, a, b); }
  }

  /**
   Only names on the way, and a link is a Team slot, or its target, taken apart as if there were no
   other links, leads to somewhere below the root.
   */
  ghost predicate Contained(hostAbsolute: string -> bool, t: Tree) {
    && (forall p, s | p in t && s in p :: IsName(s))
    && (forall p | p in t && t[p].Link? :: LinkContained(hostAbsolute, p, t[p].target))
  }

  ghost predicate LinkContained(hostAbsolute: string -> bool, p: Place, target: string) {
    || (|p| == 2 && p[0] == "teams" && IsSlug(p[1]) && hostAbsolute(target))
    || (p != [] && !AbsoluteAnywhere(hostAbsolute, target) && Follow(Init(p), Split(Portable(target), '/')).Some?)
  }

  lemma AcceptedIsContained(hostAbsolute: string -> bool, raws: seq<RawEntry>, t: Tree)
    requires (forall raw | raw in raws :: EntryOk(hostAbsolute, raw)) && Holds(t, Listed(raws))
    ensures Contained(hostAbsolute, t)
  {
    var es := Listed(raws);
    ListedAreNormal(hostAbsolute, raws);
    forall p, s | p in t && s in p ensures IsName(s) {
      assert Accounted(t, es, p);
      var e :| e in es && OnTheWay(p, e);
      assert IsNormal(e.path) && s in PlaceOf(e);
    }
    forall p | p in t && t[p].Link? ensures LinkContained(hostAbsolute, p, t[p].target) {
      assert Accounted(t, es, p);
      var e :| e in es && PlaceOf(e) == p;
      assert At(t, e);
      LinkAcceptedExactlyWhen(hostAbsolute, e.path, e.linkpath);
    }
  }

  lemma PlainName(es: seq<Entry>, t: Tree, name: string)
    requires Holds(t, es) && '/' !in name && forall e | e in es :: IsNormal(e.path)
    ensures HasFile(es, name) ==> [name] in t && t[[name]].Regular?
    ensures !Lists(es, name) ==> [name] !in t || t[[name]] == Dir
  {
    SplitWhole(name, '/');
    if e :| e in es && e.path == name && (e.kind == File || e.kind == OldFile) {
      assert At(t, e);
    }
    assert Accounted(t, es, [name]);
    forall e | e in es ensures PlaceOf(e) == [name] ==> e.path == name { JoinOfSplit(e.path, '/'); }
  }

  lemma NotBelow(es: seq<Entry>, t: Tree, p: Place, name: string)
    requires Holds(t, es) && '/' !in name && forall e | e in es :: e.path != name && !StartsWith(e.path, name + "/")
    requires p in t && p != []
    ensures p[0] != name
  {
    assert Accounted(t, es, p);
    var e :| e in es && OnTheWay(p, e);
    JoinOfSplit(e.path, '/');
    var place := PlaceOf(e);
    assert |place| > 1 ==> e.path == place[0] + "/" + Join(place[1..], '/') && place[0] + "/" <= e.path;
  }

  lemma RequiredIsThere(es: seq<Entry>, t: Tree, name: string)
    requires Holds(t, es) && ShapeOk(es) && (forall e | e in es :: IsNormal(e.path))
    requires '/' !in name && name in REQUIRED
    ensures [name] in t && t[[name]].Regular?
  {
    PlainName(es, t, name);
  }

  lemma TransientIsNot(es: seq<Entry>, t: Tree, name: string)
    requires Holds(t, es) && ShapeOk(es) && (forall e | e in es :: IsNormal(e.path))
    requires '/' !in name && name in TRANSIENT
    ensures [name] !in t || t[[name]] == Dir
  {
    PlainName(es, t, name);
  }

  /** What an accepted archive unpacks to has a database and credentials that are regular files. */
  lemma {:induction false} AcceptedHasTheFiles(hostAbsolute: string -> bool, raws: seq<RawEntry>, t: Tree)
    requires (forall raw | raw in raws :: EntryOk(hostAbsolute, raw)) && ShapeOk(Listed(raws)) && Holds(t, Listed(raws))
    ensures ["bazilion.db"] in t && t[["bazilion.db"]].Regular?
    ensures ["auth.json"] in t && t[["auth.json"]].Regular?
  {
    ListedAreNormal(hostAbsolute, raws);
    assert REQUIRED[0] == "bazilion.db" && REQUIRED[1] == "auth.json";
    RequiredIsThere(Listed(raws), t, "bazilion.db");
    RequiredIsThere(Listed(raws), t, "auth.json");
  }

  /** It has nothing of a browser's at its root, and no journal of a live database or runtime record. */
  lemma {:induction false} AcceptedHasNoLeftovers(hostAbsolute: string -> bool, raws: seq<RawEntry>, t: Tree, p: Place)
    requires (forall raw | raw in raws :: EntryOk(hostAbsolute, raw)) && ShapeOk(Listed(raws)) && Holds(t, Listed(raws))
    requires p in t && p != []
    ensures p[0] != "browsers"
    ensures p in {["bazilion.db-wal"], ["bazilion.db-shm"], ["bazilion.db-journal"], ["daemon-runtime.json"]} ==>
              t[p] == Dir
  {
    var es := Listed(raws);
    ListedAreNormal(hostAbsolute, raws);
    NotBelow(es, t, p, "browsers");
    assert TRANSIENT[0] == "bazilion.db-wal" && TRANSIENT[1] == "bazilion.db-shm";
    assert TRANSIENT[2] == "bazilion.db-journal" && TRANSIENT[3] == "daemon-runtime.json";
    if |p| == 1 && p[0] in TRANSIENT { TransientIsNot(es, t, p[0]); }
  }

  /**
   An accepted archive unpacks in any order of its entries, to one and the same tree: every
   listed entry at its own segments below the root, nothing anywhere else.
   */
  lemma {:induction false} AcceptedExtractsInAnyOrder(
    hostAbsolute: string -> bool, raws: seq<RawEntry>, order: seq<Entry>)
    requires (forall raw | raw in raws :: EntryOk(hostAbsolute, raw)) && ShapeOk(Listed(raws))
    requires multiset(order) == multiset(Listed(raws))
    ensures Extract(order).Done? && Extract(order) == Extract(Listed(raws))
    ensures Holds(Extract(order).tree, Listed(raws)) && Contained(hostAbsolute, Extract(order).tree)
  {
    ShapeFits(Listed(raws));
    AnyOrder(Listed(raws), order);
    FitsExtracts(Listed(raws));
    AcceptedIsContained(hostAbsolute, raws, Extract(order).tree);
  }
}
