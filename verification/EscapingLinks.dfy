/**
 Why what an accepted archive links to may lie above the root: a home with `d/l` leading to `..` and
 `x` leading to `d/l/..`, whose own backup is accepted and unpacks to just these links.
 */
module EscapingLinks {
  import opened Text
  import opened Wrappers
  import opened ArchiveShape
  import opened ArchiveExtraction
  import opened LinkResolution
  import opened BackupArchive

  /** Names that no filter excludes, and what the two links hold. */
  datatype Names = Names(d: string, l: string, x: string, up: string, far: string) {
    predicate Ok() {
      && Plain(d) && Plain(l) && Plain(x) && d != x && d != AUTH && x != AUTH
      && up == ".." && far == d + ['/'] + (l + ['/'] + up) && !DriveLike(far)
    }
  }

  predicate Plain(name: string) {
    IsName(name) && name[0] !in {'b', 'd', 't'}
  }

  function HomeOf(n: Names): Home {
    map[[AUTH] := HomeFile(0, 0), [n.d] := HomeDirectory, [n.d, n.l] := HomeLink(n.up), [n.x] := HomeLink(n.far)]
  }

  function OrderOf(n: Names): seq<Place> {
    [[AUTH], [n.d], [n.d, n.l], [n.x]]
  }

  // It can be backed up and restored

  lemma {:induction false} PartsOf(n: Names)
    requires n.Ok()
    ensures Split(n.up, '/') == [n.up] && Split(n.far, '/') == [n.d, n.l, n.up]
    ensures Portable(n.up) == n.up && Portable(n.far) == n.far
  {
    FarParts(n.d, n.l, n.up);
    SplitWhole(n.up, '/');
    PlainPortable(n.up);
    FarIsPlain(n.d, n.l, n.up);
    PlainPortable(n.far);
  }

  lemma {:induction false} FarParts(d: string, l: string, up: string)
    requires '/' !in d && '/' !in l && '/' !in up
    ensures Split(d + ['/'] + (l + ['/'] + up), '/') == [d, l, up]
  {
    SplitAt(d, l + ['/'] + up, '/');
    SplitAt(l, up, '/');
    SplitWhole(up, '/');
  }

  lemma FarIsPlain(d: string, l: string, up: string)
    requires IsName(d) && IsName(l) && up == ".."
    ensures var far := d + ['/'] + (l + ['/'] + up); '\\' !in far && NUL !in far && far != "" && far[0] == d[0]
  {
  }

  lemma PlainPortable(target: string)
    requires '\\' !in target
    ensures Portable(target) == target
  {
  }

  lemma NotExcluded(path: string)
    requires path != "" && path[0] !in {'b', 'd'} && |Split(path, '/')| < 4
    ensures !Excluded(path)
  {
  }

  lemma NamesOf(n: Names, p: Place)
    requires n.Ok() && p in HomeOf(n)
    ensures p == [AUTH] || p == [n.d] || p == [n.d, n.l] || p == [n.x]
    ensures NoBackslash(p) && forall s | s in p :: IsFileName(s)
  {
  }

  lemma IsAHome(n: Names)
    requires n.Ok()
    ensures IsHome(HomeOf(n))
  {
    assert Init([n.d, n.l]) == [n.d];
    forall p | p in HomeOf(n) ensures PlaceSound(HomeOf(n), p) {
      NamesOf(n, p);
    }
  }

  lemma FilteredIn(p: Place)
    requires 1 <= |p| <= 2 && NoBackslash(p) && (forall s | s in p :: IsFileName(s))
    requires p[0] != "" && p[0][0] !in {'b', 'd'}
    ensures Filter(PathTo(p))
  {
    SplitOfJoin(p, '/');
    assert Join(p, '/') != "" && Join(p, '/')[0] == p[0][0];
    NotExcluded(Join(p, '/'));
    FilterIs(p);
  }

  /** Nothing of this home is left out of its backup. */
  lemma AllArchived(n: Names, p: Place)
    requires n.Ok()
    ensures Archived(HomeOf(n), p) <==> p in OrderOf(n)
  {
    if p in OrderOf(n) {
      NamesOf(n, p);
      assert AUTH[0] == 'a';
      forall i | 1 <= i <= |p| ensures Filter(PathTo(p[..i])) {
        assert forall s | s in p[..i] :: s in p;
        FilteredIn(p[..i]);
      }
    } else if p in HomeOf(n) {
      NamesOf(n, p);
    }
  }

  lemma WalkedInOrder(n: Names)
    requires n.Ok()
    ensures Walks(HomeOf(n), OrderOf(n))
  {
    forall p ensures p in OrderOf(n) <==> Archived(HomeOf(n), p) { AllArchived(n, p); }
  }

  lemma {:induction false} RelativeAccepted(
    hostAbsolute: string -> bool, path: string, at: Place, target: string, parts: seq<string>)
    requires IsNormal(path) && Init(Split(path, '/')) == at && !IsTeamSlot(path)
    requires target != "" && NUL !in target && Portable(target) == target && Split(target, '/') == parts
    requires !AbsoluteAnywhere(hostAbsolute, target) && !DriveLike(target) && Follow(at, parts).Some?
    ensures ValidateArchiveSymbolicLink(hostAbsolute, path, Some(target)) == None
  {
    LinkAcceptedExactlyWhen(hostAbsolute, path, Some(target));
  }

  lemma {:induction false} NearIsAccepted(hostAbsolute: string -> bool, n: Names)
    requires n.Ok() && !hostAbsolute(n.up)
    ensures ValidateArchiveSymbolicLink(hostAbsolute, Join([n.d, n.l], '/'), Some(n.up)) == None
    ensures !AbsoluteAnywhere(hostAbsolute, n.up)
  {
    PartsOf(n);
    SplitOfJoin([n.d, n.l], '/');
    assert Init([n.d, n.l]) == [n.d] && Init([n.d]) == [] && [n.up][1..] == [];
    assert n.d != "teams";
    assert Follow([n.d], [n.up]) == Some([]);
    RelativeAccepted(hostAbsolute, Join([n.d, n.l], '/'), [n.d], n.up, [n.up]);
  }

  lemma {:induction false} FarIsAccepted(hostAbsolute: string -> bool, n: Names)
    requires n.Ok() && !hostAbsolute(n.far)
    ensures ValidateArchiveSymbolicLink(hostAbsolute, Join([n.x], '/'), Some(n.far)) == None
    ensures !AbsoluteAnywhere(hostAbsolute, n.far)
  {
    PartsOf(n);
    FarIsPlain(n.d, n.l, n.up);
    SplitWhole(n.x, '/');
    FollowsThrough(n.d, n.l, n.up);
    assert Init([n.x]) == [] && Join([n.x], '/') == n.x;
    RelativeAccepted(hostAbsolute, n.x, [], n.far, [n.d, n.l, n.up]);
  }

  lemma FollowsThrough(d: string, l: string, up: string)
    requires IsName(d) && IsName(l) && up == ".."
    ensures Follow([], [d, l, up]) == Some([d])
  {
    assert [] + [d] == [d] && [d] + [l] == [d, l] && Init([d, l]) == [d];
    assert [d, l, up][1..] == [l, up] && [l, up][1..] == [up] && [up][1..] == [];
    assert Follow([d, l], [up]) == Some([d]);
    assert Follow([d], [l, up]) == Some([d]);
  }

  lemma CanBeRestored(hostAbsolute: string -> bool, n: Names)
    requires n.Ok() && !hostAbsolute(n.up) && !hostAbsolute(n.far)
    ensures Restorable(hostAbsolute, HomeOf(n))
  {
    var home := HomeOf(n);
    NearIsAccepted(hostAbsolute, n);
    FarIsAccepted(hostAbsolute, n);
    forall p | Archived(home, p) ensures NodeFit(hostAbsolute, home, p) { NamesOf(n, p); }
    forall p, q | Archived(home, p) && Archived(home, q) ensures OneName(home, p, q) {
      NamesOf(n, p);
      NamesOf(n, q);
    }
  }

  // What it unpacks to

  /** The tree has the two links, with nothing or a directory on the way. */
  ghost predicate HasTheLinks(t: Tree, n: Names) {
    && !LinkAt(t, [n.d])
    && LinkAt(t, [n.d, n.l]) && t[[n.d, n.l]].target == n.up
    && LinkAt(t, [n.x]) && t[[n.x]].target == n.far
    && forall p | LinkAt(t, p) :: p == [n.d, n.l] || p == [n.x]
  }

  lemma {:induction false} RestoredHasTheLinks(n: Names, t: Tree, snapshot: nat)
    requires n.Ok() && IsRestoredHome(t, HomeOf(n), snapshot)
    ensures HasTheLinks(t, n)
  {
    var home := HomeOf(n);
    assert DATABASE[0] == 'b';
    forall p ensures p in t <==> p in OrderOf(n) || p == [DATABASE] { AllArchived(n, p); }
    forall p | p in t ensures p == [AUTH] || p == [n.d] || p == [n.d, n.l] || p == [n.x] || p == [DATABASE] {
      assert Archived(home, p) || p == [DATABASE];
    }
    assert [n.d] in OrderOf(n) && [n.d, n.l] in OrderOf(n) && [n.x] in OrderOf(n);
  }

  /** The one that passes the other goes up once after it. */
  lemma GoesUpOnce(hostAbsolute: string -> bool, t: Tree, n: Names)
    requires n.Ok() && HasTheLinks(t, n)
    ensures Within(hostAbsolute, t, 1)
  {
    PartsOf(n);
    UpsFar(t, n.d, n.l, n.up);
    forall p | p != [] && LinkAt(t, p) ensures WithinAt(hostAbsolute, t, 1, p) {
      if p == [n.x] { assert Init(p) == []; } else { UpsNear(t, Init(p), n.up); }
    }
  }

  lemma UpsNear(t: Tree, at: Place, up: string)
    requires up == ".."
    ensures UpsAfterLink(t, at, [up]) == 0
  {
    assert [up][1..] == [];
  }

  lemma UpsFar(t: Tree, d: string, l: string, up: string)
    requires IsName(d) && IsName(l) && up == ".." && !LinkAt(t, [d]) && LinkAt(t, [d, l])
    ensures UpsAfterLink(t, [], [d, l, up]) == 1
  {
    assert [] + [d] == [d] && [d] + [l] == [d, l];
    assert [d, l, up][1..] == [l, up] && [l, up][1..] == [up] && [up][1..] == [];
    assert Ups([up]) == 1;
    assert UpsAfterLink(t, [d], [l, up]) == 1;
  }

  lemma PassesPlace(
    hostAbsolute: string -> bool, t: Tree, at: Place, next: Place, name: string, rest: seq<string>, links: nat)
    requires IsName(name) && next == at + [name] && !LinkAt(t, next)
    ensures Resolve(hostAbsolute, t, at, [name] + rest, links) == Resolve(hostAbsolute, t, next, rest, links)
  {
    assert ([name] + rest)[1..] == rest;
  }

  lemma PassesLink(
    hostAbsolute: string -> bool, t: Tree, at: Place, next: Place, name: string, rest: seq<string>, links: nat)
    requires IsName(name) && next == at + [name] && LinkAt(t, next) && links > 0
    requires !AbsoluteAnywhere(hostAbsolute, t[next].target)
    ensures Resolve(hostAbsolute, t, at, [name] + rest, links)
            == Resolve(hostAbsolute, t, at, Split(Portable(t[next].target), '/') + rest, links - 1)
  {
    assert ([name] + rest)[1..] == rest;
  }

  /** Up from where the link at `d/l` leads, which is the directory above its own. */
  lemma {:induction false} UpThroughALink(hostAbsolute: string -> bool, t: Tree, d: string, l: string, up: string)
    requires IsName(d) && IsName(l) && up == ".." && Split(Portable(up), '/') == [up]
    requires !LinkAt(t, [d]) && LinkAt(t, [d, l]) && t[[d, l]].target == up && !AbsoluteAnywhere(hostAbsolute, up)
    ensures Resolve(hostAbsolute, t, [], [d] + ([l] + [up]), 1) == Above
  {
    PassesPlace(hostAbsolute, t, [], [d], d, [l] + [up], 1);
    PassesLink(hostAbsolute, t, [d], [d, l], l, [up], 1);
    UpTwice(hostAbsolute, t, d, up, 0);
  }

  lemma {:induction false} LeadsAbove(hostAbsolute: string -> bool, t: Tree, n: Names)
    requires n.Ok() && HasTheLinks(t, n)
    requires !AbsoluteAnywhere(hostAbsolute, n.up) && !AbsoluteAnywhere(hostAbsolute, n.far)
    ensures Resolve(hostAbsolute, t, [], [n.x], 2) == Above
  {
    var rest: seq<string> := [];
    PartsOf(n);
    assert [n.x] + rest == [n.x] && [n.d, n.l, n.up] + rest == [n.d] + ([n.l] + [n.up]);
    PassesLink(hostAbsolute, t, [], [n.x], n.x, rest, 2);
    UpThroughALink(hostAbsolute, t, n.d, n.l, n.up);
  }

  lemma UpTwice(hostAbsolute: string -> bool, t: Tree, d: string, up: string, links: nat)
    requires up == ".."
    ensures Resolve(hostAbsolute, t, [d], [up] + [up], links) == Above
  {
    assert ([up] + [up])[1..] == [up] && Init([d]) == [];
    assert Resolve(hostAbsolute, t, [], [up], links) == Above;
  }

  /** The backup of that home is accepted, and however it is unpacked, opening `x` leads above the root. */
  lemma {:induction false} BackupEscapes(hostAbsolute: string -> bool, n: Names, snapshot: nat, order: seq<Entry>)
    requires n.Ok() && !hostAbsolute(n.up) && !hostAbsolute(n.far)
    requires multiset(order) == multiset(Listed(CreateBackupArchive(HomeOf(n), OrderOf(n), snapshot)))
    ensures Accepted(hostAbsolute, CreateBackupArchive(HomeOf(n), OrderOf(n), snapshot))
    ensures Extract(order).Done? && Within(hostAbsolute, Extract(order).tree, 1)
    ensures Resolve(hostAbsolute, Extract(order).tree, [], [n.x], 2) == Above
  {
    IsAHome(n);
    WalkedInOrder(n);
    CanBeRestored(hostAbsolute, n);
    NearIsAccepted(hostAbsolute, n);
    FarIsAccepted(hostAbsolute, n);
    AcceptedExactlyWhenRestorable(hostAbsolute, HomeOf(n), OrderOf(n), snapshot);
    BackupRoundTrip(hostAbsolute, HomeOf(n), OrderOf(n), snapshot, order);
    RestoredHasTheLinks(n, Extract(order).tree, snapshot);
    GoesUpOnce(hostAbsolute, Extract(order).tree, n);
    LeadsAbove(hostAbsolute, Extract(order).tree, n);
  }

  // Exactly when nothing leads above

  /** An archive that is accepted and whose targets go up at most so often after a link is enclosed. */
  ghost predicate Encloses(hostAbsolute: string -> bool, d: nat, raws: seq<RawEntry>, order: seq<Entry>) {
    Accepted(hostAbsolute, raws) && multiset(order) == multiset(Listed(raws)) && Extract(order).Done?
    && Within(hostAbsolute, Extract(order).tree, d)
    ==> Enclosed(hostAbsolute, Extract(order).tree)
  }

  ghost predicate AlwaysEnclosed(hostAbsolute: string -> bool, d: nat) {
    forall raws, order {:trigger Encloses(hostAbsolute, d, raws, order)} :: Encloses(hostAbsolute, d, raws, order)
  }

  const EXAMPLE := Names("a", "l", "x", "..", "a/l/..")

  lemma ExampleOk()
    ensures EXAMPLE.Ok()
  {
    assert EXAMPLE.far == "a" + ['/'] + ("l" + ['/'] + "..");
    assert AUTH[1] == 'u';
  }

  lemma WithinMore(hostAbsolute: string -> bool, t: Tree, d: nat)
    requires Within(hostAbsolute, t, 1) && d >= 1
    ensures Within(hostAbsolute, t, d)
  {
    forall p | p != [] && LinkAt(t, p) ensures WithinAt(hostAbsolute, t, d, p) {
      assert WithinAt(hostAbsolute, t, 1, p);
    }
  }

  lemma NotAlwaysEnclosed(
    hostAbsolute: string -> bool, d: nat, raws: seq<RawEntry>, order: seq<Entry>, x: string, links: nat)
    requires Accepted(hostAbsolute, raws) && multiset(order) == multiset(Listed(raws)) && Extract(order).Done?
    requires Within(hostAbsolute, Extract(order).tree, d)
    requires IsName(x) && Resolve(hostAbsolute, Extract(order).tree, [], [x], links) == Above
    ensures !AlwaysEnclosed(hostAbsolute, d)
  {
    assert !DownStaysBelow(hostAbsolute, Extract(order).tree, [], [x], links);
    assert !Encloses(hostAbsolute, d, raws, order);
  }

  lemma {:induction false} OneUpEscapes(hostAbsolute: string -> bool, d: nat, n: Names)
    requires d >= 1 && n.Ok() && !hostAbsolute(n.up) && !hostAbsolute(n.far)
    ensures !AlwaysEnclosed(hostAbsolute, d)
  {
    var raws := CreateBackupArchive(HomeOf(n), OrderOf(n), 0);
    var order := Listed(raws);
    BackupEscapes(hostAbsolute, n, 0, order);
    WithinMore(hostAbsolute, Extract(order).tree, d);
    NotAlwaysEnclosed(hostAbsolute, d, raws, order, n.x, 2);
  }

  /**
   Let the targets of links go up at most `d` times after the first link they pass. Then every
   accepted archive, however it is unpacked, leads nowhere above the root, exactly when `d` is zero.
   */
  lemma {:induction false} AcceptedStaysBelowExactlyWhen(hostAbsolute: string -> bool, d: nat)
    requires !hostAbsolute("..") && !hostAbsolute("a/l/..")
    ensures AlwaysEnclosed(hostAbsolute, d) <==> d == 0
  {
    if d == 0 {
      forall raws, order ensures Encloses(hostAbsolute, 0, raws, order) {
        if Accepted(hostAbsolute, raws) && multiset(order) == multiset(Listed(raws)) && Extract(order).Done?
           && Within(hostAbsolute, Extract(order).tree, 0) {
          AcceptedLinksStayBelow(hostAbsolute, raws, order);
        }
      }
    } else {
      ExampleOk();
      OneUpEscapes(hostAbsolute, d, EXAMPLE);
    }
  }
}
