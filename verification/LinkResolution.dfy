/**
 Where the links of an unpacked archive lead on a file system. The check of a link is lexical: it
 takes the link's target apart as if there were no other links. A system that opens the link goes
 through whatever links it meets, and goes up from where they lead.
 */
module LinkResolution {
  import opened Text
  import opened Wrappers
  import opened ArchiveShape
  import opened ArchiveExtraction

  /** Below the root, above it, at a target that the host calls absolute, or after too many links. */
  datatype Where = At(place: Place) | Above | Host(target: string) | TooMany

  predicate LinkAt(t: Tree, p: Place) {
    p in t && t[p].Link?
  }

  /**
   Segment by segment from a directory, through at most so many links. A place with nothing or a
   file in it is passed like a directory: a system that stops there reaches less.
   */
  function Resolve(hostAbsolute: string -> bool, t: Tree, at: Place, segments: seq<string>, links: nat): Where
    decreases links, |segments|
  {
    if segments == [] then Where.At(at)
    else
      var segment, rest := segments[0], segments[1..];
      if !Kept(segment) then Resolve(hostAbsolute, t, at, rest, links)
      else if segment == ".." then
        if at == [] then Above else Resolve(hostAbsolute, t, Init(at), rest, links)
      else if !LinkAt(t, at + [segment]) then Resolve(hostAbsolute, t, at + [segment], rest, links)
      else
        var target := t[at + [segment]].target;
        if AbsoluteAnywhere(hostAbsolute, target) then Host(target)
        else if links == 0 then TooMany
        else Resolve(hostAbsolute, t, at, Split(Portable(target), '/') + rest, links - 1)
  }

  /** Opening what is at a place in the tree. */
  function Open(hostAbsolute: string -> bool, t: Tree, p: Place, links: nat): Where
    requires p != []
  {
    Resolve(hostAbsolute, t, Init(p), [Last(p)], links)
  }

  predicate Idle(segments: seq<string>) {
    forall s | s in segments :: !Kept(s)
  }

  /** Before its last name, a target passes no place that is itself a link. */
  predicate Direct(t: Tree, at: Place, segments: seq<string>)
    decreases |segments|
  {
    if segments == [] then true
    else if !Kept(segments[0]) then Direct(t, at, segments[1..])
    else if segments[0] == ".." then at != [] ==> Direct(t, Init(at), segments[1..])
    else Idle(segments[1..]) || (!LinkAt(t, at + [segments[0]]) && Direct(t, at + [segments[0]], segments[1..]))
  }

  predicate DirectLink(t: Tree, p: Place)
    requires LinkAt(t, p) && p != []
  {
    Direct(t, Init(p), Split(Portable(t[p].target), '/'))
  }

  /** No link here, nor on the way here. */
  ghost predicate Solid(t: Tree, at: Place) {
    forall i {:trigger at[..i]} | 0 <= i <= |at| :: !LinkAt(t, at[..i])
  }

  lemma SolidBelow(t: Tree, at: Place, name: string)
    requires Solid(t, at) && !LinkAt(t, at + [name])
    ensures Solid(t, at + [name])
  {
    var p := at + [name];
    forall i | 0 <= i <= |p| ensures !LinkAt(t, p[..i]) {
      if i == |p| { assert p[..i] == p; } else { assert p[..i] == at[..i]; }
    }
  }

  lemma SolidAbove(t: Tree, at: Place)
    requires Solid(t, at) && at != []
    ensures Solid(t, Init(at)) && !LinkAt(t, at)
  {
    assert at[..|at|] == at;
    forall i | 0 <= i <= |at| - 1 ensures !LinkAt(t, Init(at)[..i]) { assert Init(at)[..i] == at[..i]; }
  }

  lemma {:induction false} IdleLeadsNowhere(
    hostAbsolute: string -> bool, t: Tree, at: Place, segments: seq<string>, idle: seq<string>, links: nat)
    requires Idle(idle)
    ensures Resolve(hostAbsolute, t, at, segments + idle, links) == Resolve(hostAbsolute, t, at, segments, links)
    ensures Follow(at, idle) == Some(at)
    decreases links, |segments| + |idle|
  {
    if segments == [] {
      assert segments + idle == idle;
      if idle != [] {
        assert [] + idle[1..] == idle[1..];
        IdleLeadsNowhere(hostAbsolute, t, at, [], idle[1..], links);
      }
    } else {
      assert (segments + idle)[1..] == segments[1..] + idle;
      var next := at + [segments[0]];
      IdleLeadsNowhere(hostAbsolute, t, at, segments[1..], idle, links);
      if at != [] { IdleLeadsNowhere(hostAbsolute, t, Init(at), segments[1..], idle, links); }
      IdleLeadsNowhere(hostAbsolute, t, next, segments[1..], idle, links);
      if LinkAt(t, next) && links > 0 {
        var parts := Split(Portable(t[next].target), '/');
        assert parts + (segments[1..] + idle) == (parts + segments[1..]) + idle;
        IdleLeadsNowhere(hostAbsolute, t, at, parts + segments[1..], idle, links - 1);
      }
    }
  }

  /**
   Where lexical and real resolution agree: a target that passes no link before its last name
   leads where it is followed to, and goes on from there only if a link is there.
   */
  lemma {:induction false} DirectLeadsWhereFollowed(
    hostAbsolute: string -> bool, t: Tree, at: Place, segments: seq<string>, links: nat)
    requires Solid(t, at) && Direct(t, at, segments)
    ensures match Follow(at, segments)
            case None => Resolve(hostAbsolute, t, at, segments, links) == Above
            case Some(end) =>
              if LinkAt(t, end) then
                && end != [] && Solid(t, Init(end))
                && Resolve(hostAbsolute, t, at, segments, links) == Open(hostAbsolute, t, end, links)
              else Resolve(hostAbsolute, t, at, segments, links) == Where.At(end)
    decreases |segments|
  {
    if segments == [] {
      assert at[..|at|] == at;
    } else if !Kept(segments[0]) {
      DirectLeadsWhereFollowed(hostAbsolute, t, at, segments[1..], links);
    } else if segments[0] == ".." {
      if at != [] {
        SolidAbove(t, at);
        DirectLeadsWhereFollowed(hostAbsolute, t, Init(at), segments[1..], links);
      }
    } else if Idle(segments[1..]) {
      var end := at + [segments[0]];
      assert Init(end) == at && segments == [segments[0]] + segments[1..];
      IdleLeadsNowhere(hostAbsolute, t, at, [segments[0]], segments[1..], links);
      IdleLeadsNowhere(hostAbsolute, t, end, [], segments[1..], links);
    } else {
      SolidBelow(t, at, segments[0]);
      DirectLeadsWhereFollowed(hostAbsolute, t, at + [segments[0]], segments[1..], links);
    }
  }

  /** How often a target goes up after the first link it passes. */
  function UpsAfterLink(t: Tree, at: Place, segments: seq<string>): nat
    decreases |segments|
  {
    if segments == [] then 0
    else if !Kept(segments[0]) then UpsAfterLink(t, at, segments[1..])
    else if segments[0] == ".." then if at == [] then 0 else UpsAfterLink(t, Init(at), segments[1..])
    else if LinkAt(t, at + [segments[0]]) then Ups(segments[1..])
    else UpsAfterLink(t, at + [segments[0]], segments[1..])
  }

  function Ups(segments: seq<string>): nat {
    if segments == [] then 0 else (if segments[0] == ".." then 1 else 0) + Ups(segments[1..])
  }

  predicate WithinAt(hostAbsolute: string -> bool, t: Tree, d: nat, p: Place)
    requires p != [] && LinkAt(t, p)
  {
    !AbsoluteAnywhere(hostAbsolute, t[p].target) ==> UpsAfterLink(t, Init(p), Split(Portable(t[p].target), '/')) <= d
  }

  /** Once the target of a link has passed another link, it goes up at most `d` times. */
  ghost predicate Within(hostAbsolute: string -> bool, t: Tree, d: nat) {
    forall p {:trigger WithinAt(hostAbsolute, t, d, p)} | p != [] && LinkAt(t, p) :: WithinAt(hostAbsolute, t, d, p)
  }

  ghost predicate AllDirect(t: Tree) {
    forall p {:trigger DirectLink(t, p)} | p != [] && LinkAt(t, p) :: DirectLink(t, p)
  }

  /** Names leading down from a place lead to below the root. */
  ghost predicate DownStaysBelow(hostAbsolute: string -> bool, t: Tree, at: Place, names: seq<string>, links: nat) {
    (forall s | s in names :: IsName(s)) ==> Resolve(hostAbsolute, t, at, names, links) != Above
  }

  /** Whatever is opened by its names, through whatever links, nothing is reached above the root. */
  ghost predicate Enclosed(hostAbsolute: string -> bool, t: Tree) {
    forall at, names, links: nat {:trigger DownStaysBelow(hostAbsolute, t, at, names, links)} ::
      DownStaysBelow(hostAbsolute, t, at, names, links)
  }

  // No way up after a link

  /** It never goes above the root as it stands, and not up at all after the first link it passes. */
  predicate Tame(t: Tree, at: Place, segments: seq<string>)
    decreases |segments|
  {
    if segments == [] then true
    else if !Kept(segments[0]) then Tame(t, at, segments[1..])
    else if segments[0] == ".." then at != [] && Tame(t, Init(at), segments[1..])
    else if LinkAt(t, at + [segments[0]]) then Ups(segments[1..]) == 0
    else Tame(t, at + [segments[0]], segments[1..])
  }

  lemma {:induction false} UpsOfMore(segments: seq<string>, rest: seq<string>)
    ensures Ups(segments + rest) == Ups(segments) + Ups(rest)
  {
    if segments == [] {
      assert segments + rest == rest;
    } else {
      assert (segments + rest)[1..] == segments[1..] + rest;
      UpsOfMore(segments[1..], rest);
    }
  }

  lemma {:induction false} NoUpsIsTame(t: Tree, at: Place, segments: seq<string>)
    requires Ups(segments) == 0
    ensures Tame(t, at, segments)
    decreases |segments|
  {
    if segments != [] {
      NoUpsIsTame(t, at, segments[1..]);
      NoUpsIsTame(t, at + [segments[0]], segments[1..]);
    }
  }

  lemma {:induction false} TameMore(t: Tree, at: Place, segments: seq<string>, rest: seq<string>)
    requires Tame(t, at, segments) && Ups(rest) == 0
    ensures Tame(t, at, segments + rest)
    decreases |segments|
  {
    if segments == [] {
      assert segments + rest == rest;
      NoUpsIsTame(t, at, rest);
    } else {
      assert (segments + rest)[1..] == segments[1..] + rest;
      if !Kept(segments[0]) {
        TameMore(t, at, segments[1..], rest);
      } else if segments[0] == ".." {
        TameMore(t, Init(at), segments[1..], rest);
      } else if LinkAt(t, at + [segments[0]]) {
        UpsOfMore(segments[1..], rest);
      } else {
        TameMore(t, at + [segments[0]], segments[1..], rest);
      }
    }
  }

  lemma {:induction false} FollowedIsTame(t: Tree, at: Place, segments: seq<string>)
    requires Follow(at, segments).Some? && UpsAfterLink(t, at, segments) == 0
    ensures Tame(t, at, segments)
    decreases |segments|
  {
    if segments != [] {
      if !Kept(segments[0]) {
        FollowedIsTame(t, at, segments[1..]);
      } else if segments[0] == ".." {
        FollowedIsTame(t, Init(at), segments[1..]);
      } else if !LinkAt(t, at + [segments[0]]) {
        FollowedIsTame(t, at + [segments[0]], segments[1..]);
      }
    }
  }

  /** The target of a link on the way is as tame as what the link is met in. */
  lemma TargetIsTame(hostAbsolute: string -> bool, t: Tree, at: Place, name: string, rest: seq<string>)
    requires Contained(hostAbsolute, t) && Within(hostAbsolute, t, 0) && Ups(rest) == 0 && LinkAt(t, at + [name])
    requires !AbsoluteAnywhere(hostAbsolute, t[at + [name]].target)
    ensures Tame(t, at, Split(Portable(t[at + [name]].target), '/') + rest)
  {
    var p := at + [name];
    var parts := Split(Portable(t[p].target), '/');
    assert Init(p) == at;
    assert LinkContained(hostAbsolute, p, t[p].target) && WithinAt(hostAbsolute, t, 0, p);
    FollowedIsTame(t, at, parts);
    TameMore(t, at, parts, rest);
  }

  lemma {:induction false} TameStaysBelow(
    hostAbsolute: string -> bool, t: Tree, at: Place, segments: seq<string>, links: nat)
    requires Contained(hostAbsolute, t) && Within(hostAbsolute, t, 0) && Tame(t, at, segments)
    ensures Resolve(hostAbsolute, t, at, segments, links) != Above
    decreases links, |segments|
  {
    if segments != [] {
      var name, rest := segments[0], segments[1..];
      if !Kept(name) {
        TameStaysBelow(hostAbsolute, t, at, rest, links);
      } else if name == ".." {
        TameStaysBelow(hostAbsolute, t, Init(at), rest, links);
      } else if !LinkAt(t, at + [name]) {
        TameStaysBelow(hostAbsolute, t, at + [name], rest, links);
      } else if !AbsoluteAnywhere(hostAbsolute, t[at + [name]].target) && links > 0 {
        TargetIsTame(hostAbsolute, t, at, name, rest);
        TameStaysBelow(hostAbsolute, t, at, Split(Portable(t[at + [name]].target), '/') + rest, links - 1);
      }
    }
  }

  lemma {:induction false} NamesHaveNoUps(names: seq<string>)
    requires forall s | s in names :: IsName(s)
    ensures Ups(names) == 0
  {
    if names != [] {
      assert IsName(names[0]);
      NamesHaveNoUps(names[1..]);
    }
  }

  /** Contained links that go up no more once they have passed a link lead nowhere above the root. */
  lemma ContainedIsEnclosed(hostAbsolute: string -> bool, t: Tree)
    requires Contained(hostAbsolute, t) && Within(hostAbsolute, t, 0)
    ensures Enclosed(hostAbsolute, t)
  {
    forall at, names, links: nat ensures DownStaysBelow(hostAbsolute, t, at, names, links) {
      if forall s | s in names :: IsName(s) {
        NamesHaveNoUps(names);
        NoUpsIsTame(t, at, names);
        TameStaysBelow(hostAbsolute, t, at, names, links);
      }
    }
  }

  lemma {:induction false} IdleHasNoUps(segments: seq<string>)
    requires Idle(segments)
    ensures Ups(segments) == 0
  {
    if segments != [] {
      assert !Kept(segments[0]);
      IdleHasNoUps(segments[1..]);
    }
  }

  lemma {:induction false} DirectGoesUpFirst(t: Tree, at: Place, segments: seq<string>)
    requires Direct(t, at, segments)
    ensures UpsAfterLink(t, at, segments) == 0
    decreases |segments|
  {
    if segments != [] {
      if !Kept(segments[0]) {
        DirectGoesUpFirst(t, at, segments[1..]);
      } else if segments[0] == ".." {
        if at != [] { DirectGoesUpFirst(t, Init(at), segments[1..]); }
      } else if Idle(segments[1..]) {
        IdleHasNoUps(segments[1..]);
        IdleGoesNowhere(t, at + [segments[0]], segments[1..]);
      } else {
        DirectGoesUpFirst(t, at + [segments[0]], segments[1..]);
      }
    }
  }

  lemma {:induction false} IdleGoesNowhere(t: Tree, at: Place, segments: seq<string>)
    requires Idle(segments)
    ensures UpsAfterLink(t, at, segments) == 0
    decreases |segments|
  {
    if segments != [] {
      assert !Kept(segments[0]);
      IdleGoesNowhere(t, at, segments[1..]);
    }
  }

  // Accepted archives

  ghost predicate Accepted(hostAbsolute: string -> bool, raws: seq<RawEntry>) {
    (forall raw | raw in raws :: EntryOk(hostAbsolute, raw)) && ShapeOk(Listed(raws))
  }

  /**
   In an accepted archive, however it is unpacked, nothing leads a system above the root, unless
   the target of some link passes another link and then goes up.
   */
  lemma {:induction false} AcceptedLinksStayBelow(
    hostAbsolute: string -> bool, raws: seq<RawEntry>, order: seq<Entry>)
    requires Accepted(hostAbsolute, raws) && multiset(order) == multiset(Listed(raws))
    requires Extract(order).Done? && Within(hostAbsolute, Extract(order).tree, 0)
    ensures Enclosed(hostAbsolute, Extract(order).tree)
  {
    AcceptedExtractsInAnyOrder(hostAbsolute, raws, order);
    ContainedIsEnclosed(hostAbsolute, Extract(order).tree);
  }

  /** So it is where no target passes a link before its last name. */
  lemma {:induction false} DirectLinksStayBelow(
    hostAbsolute: string -> bool, raws: seq<RawEntry>, order: seq<Entry>)
    requires Accepted(hostAbsolute, raws) && multiset(order) == multiset(Listed(raws))
    requires Extract(order).Done? && AllDirect(Extract(order).tree)
    ensures Within(hostAbsolute, Extract(order).tree, 0) && Enclosed(hostAbsolute, Extract(order).tree)
  {
    var t := Extract(order).tree;
    forall p | p != [] && LinkAt(t, p) ensures WithinAt(hostAbsolute, t, 0, p) {
      assert DirectLink(t, p);
      DirectGoesUpFirst(t, Init(p), Split(Portable(t[p].target), '/'));
    }
    AcceptedLinksStayBelow(hostAbsolute, raws, order);
  }
}
