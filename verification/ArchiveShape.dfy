/**
 What a restore demands of the shape of an archive before anything is unpacked: portable paths,
 links that stay inside, no entry below anything but a directory.
 */
module ArchiveShape {
  import opened Text
  import opened Wrappers

  datatype EntryType = File | OldFile | Directory | SymbolicLink | Other(name: string)

  /** `body` stands for what the archive holds for the entry. */
  datatype Entry = Entry(path: string, kind: EntryType, linkpath: Option<string>, body: nat)

  datatype RawEntry = RawEntry(meta: bool, entry: Entry)

  const NUL: char := 0 as char

  // Paths

  predicate IsLetter(c: char) {
    'a' <= c <= 'z' || 'A' <= c <= 'Z'
  }

  predicate DriveLike(s: string) {
    |s| >= 2 && IsLetter(s[0]) && s[1] == ':'
  }

  predicate PathOk(raw: string) {
    && raw != "" && NUL !in raw && '\\' !in raw
    && raw[0] != '/' && !DriveLike(raw)
    && ".." !in Split(raw, '/')
  }

  predicate Kept(segment: string) {
    segment != "" && segment != "."
  }

  function Keep(parts: seq<string>): (r: seq<string>)
    ensures forall p :: p in r <==> p in parts && Kept(p)
  {
    if parts == [] then []
    else Keep(parts[..|parts| - 1]) + if Kept(parts[|parts| - 1]) then [parts[|parts| - 1]] else []
  }

  function Normal(raw: string): string {
    Join(Keep(Split(raw, '/')), '/')
  }

  method NormalizeArchivePath(rawPath: string) returns (path: Option<string>)
    ensures path == if PathOk(rawPath) then Some(Normal(rawPath)) else None
  {
    if rawPath == "" || NUL in rawPath { return None; }
    if '\\' in rawPath { return None; }
    if rawPath[0] == '/' || DriveLike(rawPath) { return None; }
    var segments: seq<string> := [];
    var parts := Split(rawPath, '/');
    for i := 0 to |parts|
      invariant segments == Keep(parts[..i]) && ".." !in parts[..i]
    {
      var segment := parts[i];
      assert parts[..i + 1] == parts[..i] + [segment];
      if segment == ".." { return None; }
      if segment != "" && segment != "." { segments := segments + [segment]; }
    }
    assert parts[..|parts|] == parts;
    path := Some(Join(segments, '/'));
  }

  /** A name that means the same on every platform. */
  predicate IsName(s: string) {
    Kept(s) && s != ".." && '/' !in s && '\\' !in s && NUL !in s
  }

  predicate IsNormal(path: string) {
    forall s | s in Split(path, '/') :: IsName(s)
  }

  lemma {:induction false} PartsKeepOut(s: string, sep: char, c: char)
    requires c !in s
    ensures forall p | p in Split(s, sep) :: c !in p
    decreases |s|
  {
    if sep !in s {
      SplitWhole(s, sep);
    } else {
      var head, rest := Cut(s, sep);
      SplitAt(head, rest, sep);
      assert s == head + [sep] + rest;
      assert forall x | x in head :: x in s;
      assert forall x | x in rest :: x in s;
      PartsKeepOut(rest, sep, c);
    }
  }

  lemma {:induction false} JoinKeepsOut(parts: seq<string>, sep: char, c: char)
    requires c != sep && forall p | p in parts :: c !in p
    ensures c !in Join(parts, sep)
  {
    if |parts| > 1 {
      JoinKeepsOut(parts[1..], sep, c);
      assert parts[0] in parts;
    } else if |parts| == 1 {
      assert parts[0] in parts;
    }
  }

  lemma {:induction false} KeepAll(parts: seq<string>)
    requires forall p | p in parts :: Kept(p)
    ensures Keep(parts) == parts
  {
    if parts != [] {
      KeepAll(parts[..|parts| - 1]);
      assert parts == parts[..|parts| - 1] + [parts[|parts| - 1]];
    }
  }

  /** A normalized path is its segments and nothing else, and every one of them is a name. */
  lemma NormalizedSegments(raw: string)
    requires PathOk(raw)
    ensures forall s | s in Keep(Split(raw, '/')) :: IsName(s)
    ensures Normal(raw) == "" <==> Keep(Split(raw, '/')) == []
    ensures Normal(raw) != "" ==> Split(Normal(raw), '/') == Keep(Split(raw, '/')) && IsNormal(Normal(raw))
  {
    PartsHaveNoSeparator(raw, '/');
    PartsKeepOut(raw, '/', '\\');
    PartsKeepOut(raw, '/', NUL);
    var segments := Keep(Split(raw, '/'));
    if segments != [] {
      assert segments[0] in segments;
      SplitOfJoin(segments, '/');
    }
  }

  /**
   Normalizing again changes nothing; a second pass refuses only what has come to start like a
   drive, as `./c:/x` does.
   */
  lemma NormalizeTwice(raw: string)
    requires PathOk(raw) && Normal(raw) != ""
    ensures Normal(Normal(raw)) == Normal(raw)
    ensures PathOk(Normal(raw)) <==> !DriveLike(Normal(raw))
  {
    NormalizedSegments(raw);
    var segments := Keep(Split(raw, '/'));
    KeepAll(segments);
    JoinKeepsOut(segments, '/', '\\');
    JoinKeepsOut(segments, '/', NUL);
    NormalStartsWithName(segments);
  }

  lemma NormalStartsWithName(segments: seq<string>)
    requires segments != [] && forall s | s in segments :: IsName(s)
    ensures Join(segments, '/') != "" && Join(segments, '/')[0] != '/'
  {
    assert IsName(segments[0]);
    assert Join(segments, '/')[0] == segments[0][0];
    assert segments[0][0] in segments[0];
  }

  // Symbolic links

  function Portable(target: string): string {
    seq(|target|, i requires 0 <= i < |target| => if target[i] == '\\' then '/' else target[i])
  }

  predicate IsSlug(s: string) {
    && s != "" && s[0] != '-'
    && forall i | 0 <= i < |s| :: 'a' <= s[i] <= 'z' || '0' <= s[i] <= '9' || s[i] == '-'
  }

  predicate IsTeamSlot(path: string) {
    var segments := Split(path, '/');
    |segments| == 2 && segments[0] == "teams" && IsSlug(segments[1])
  }

  /** Small letters, digits and hyphens, and no hyphen first. */
  predicate IsSlugText(s: string) {
    s != "" && s[0] != '-' && forall c | c in s :: 'a' <= c <= 'z' || '0' <= c <= '9' || c == '-'
  }

  lemma SlugsAreText(s: string)
    ensures IsSlug(s) <==> IsSlugText(s)
    ensures IsSlug(s) ==> '/' !in s
  {
    assert forall i | 0 <= i < |s| :: s[i] in s;
  }

  lemma {:induction false} SlotPath(path: string, teams: string, slug: string)
    requires '/' !in teams && '/' !in slug
    ensures Split(path, '/') == [teams, slug] <==> path == teams + ['/'] + slug
  {
    SplitAt(teams, slug, '/');
    SplitWhole(slug, '/');
    JoinOfSplit(path, '/');
    assert Join([teams, slug], '/') == teams + ['/'] + slug;
  }

  /** A Team slot is `teams/` and a slug. */
  lemma {:induction false} TeamSlotsAre(path: string)
    ensures IsTeamSlot(path) <==> exists slug :: IsSlugText(slug) && path == "teams" + ['/'] + slug
  {
    var segments := Split(path, '/');
    if IsTeamSlot(path) {
      SlugsAreText(segments[1]);
      SlotPath(path, "teams", segments[1]);
      assert segments == ["teams", segments[1]];
    }
    if slug :| IsSlugText(slug) && path == "teams" + ['/'] + slug {
      SlugsAreText(slug);
      SlotPath(path, "teams", slug);
    }
  }

  /** `hostAbsolute` is `isAbsolute` of the host's own path rules. */
  predicate AbsoluteAnywhere(hostAbsolute: string -> bool, target: string) {
    var portable := Portable(target);
    || hostAbsolute(target)
    || (portable != "" && portable[0] == '/')
    || (DriveLike(portable) && |portable| >= 3 && portable[2] == '/')
  }

  /** One step of the lexical `posix.normalize`, which keeps leading `..` segments. */
  function PosixStep(stack: seq<string>, segment: string): seq<string> {
    if !Kept(segment) then stack
    else if segment != ".." then stack + [segment]
    else if stack == [] || Last(stack) == ".." then stack + [".."]
    else Init(stack)
  }

  function PosixNormalize(stack: seq<string>, segments: seq<string>): seq<string>
    decreases |segments|
  {
    if segments == [] then stack else PosixNormalize(PosixStep(stack, segments[0]), segments[1..])
  }

  function Dirname(path: string): string {
    var segments := Split(path, '/');
    if |segments| == 1 then "." else Join(Init(segments), '/')
  }

  datatype LinkError = EmptyTarget | AbsoluteOutsideTeams | BadTeamTarget | NotPortable | Escapes

  function ValidateArchiveSymbolicLink(
    hostAbsolute: string -> bool, path: string, rawTarget: Option<string>): Option<LinkError> {
    if rawTarget.None? || rawTarget.value == "" || NUL in rawTarget.value then Some(EmptyTarget)
    else
      var target := rawTarget.value;
      var portable := Portable(target);
      if AbsoluteAnywhere(hostAbsolute, target) then
        if !IsTeamSlot(path) then Some(AbsoluteOutsideTeams)
        else if !hostAbsolute(target) then Some(BadTeamTarget)
        else None
      else if IsTeamSlot(path) then Some(BadTeamTarget)
      else if DriveLike(portable) then Some(NotPortable)
      else
        var leads := PosixNormalize([], Split(Dirname(path) + "/" + portable, '/'));
        if leads != [] && leads[0] == ".." then Some(Escapes) else None
  }

  /** Following a target from a directory inside the root; a step above the root is the end of it. */
  function Follow(at: seq<string>, segments: seq<string>): Option<seq<string>>
    decreases |segments|
  {
    if segments == [] then Some(at)
    else if !Kept(segments[0]) then Follow(at, segments[1..])
    else if segments[0] != ".." then Follow(at + [segments[0]], segments[1..])
    else if at == [] then None
    else Follow(Init(at), segments[1..])
  }

  lemma {:induction false} OnceOutAlwaysOut(stack: seq<string>, segments: seq<string>)
    requires stack != [] && stack[0] == ".."
    ensures PosixNormalize(stack, segments) != [] && PosixNormalize(stack, segments)[0] == ".."
    decreases |segments|
  {
    if segments != [] { OnceOutAlwaysOut(PosixStep(stack, segments[0]), segments[1..]); }
  }

  lemma {:induction false} NormalizeFollows(at: seq<string>, segments: seq<string>)
    requires ".." !in at
    ensures var leads := PosixNormalize(at, segments);
            match Follow(at, segments)
            case Some(end) => leads == end && ".." !in end
            case None => leads != [] && leads[0] == ".."
    decreases |segments|
  {
    if segments != [] {
      if segments[0] != ".." {
        NormalizeFollows(PosixStep(at, segments[0]), segments[1..]);
      } else if at == [] {
        assert PosixStep(at, segments[0]) == [".."];
        OnceOutAlwaysOut([".."], segments[1..]);
      } else {
        assert Last(at) in at;
        assert PosixStep(at, segments[0]) == Init(at);
        NormalizeFollows(Init(at), segments[1..]);
      }
    }
  }

  lemma {:induction false} NormalizeNames(stack: seq<string>, names: seq<string>, rest: seq<string>)
    requires forall n | n in names :: IsName(n)
    ensures PosixNormalize(stack, names + rest) == PosixNormalize(stack + names, rest)
    decreases |names|
  {
    if names == [] {
      assert names + rest == rest && stack + names == stack;
    } else {
      assert IsName(names[0]);
      assert (names + rest)[1..] == names[1..] + rest;
      NormalizeNames(stack + [names[0]], names[1..], rest);
      assert stack + [names[0]] + names[1..] == stack + names;
    }
  }

  lemma Regrouped(first: string, below: string, rest: string)
    ensures (first + ['/'] + below) + "/" + rest == first + ['/'] + (below + "/" + rest)
  {
  }

  lemma {:induction false} SplitOfDirectory(names: seq<string>, rest: string)
    requires names != [] && forall n | n in names :: '/' !in n
    ensures Split(Join(names, '/') + "/" + rest, '/') == names + Split(rest, '/')
  {
    if |names| == 1 {
      SplitAt(names[0], rest, '/');
    } else {
      SplitOfDirectory(names[1..], rest);
      assert names[0] in names;
      var below := Join(names[1..], '/');
      Regrouped(names[0], below, rest);
      SplitAt(names[0], below + "/" + rest, '/');
      assert [names[0]] + (names[1..] + Split(rest, '/')) == names + Split(rest, '/');
    }
  }

  lemma LinkLeads(path: string, portable: string)
    requires IsNormal(path)
    ensures PosixNormalize([], Split(Dirname(path) + "/" + portable, '/'))
            == PosixNormalize(Init(Split(path, '/')), Split(portable, '/'))
  {
    var segments := Split(path, '/');
    assert forall n | n in Init(segments) :: n in segments;
    if |segments| == 1 {
      SplitAt(".", portable, '/');
      var all := ["."] + Split(portable, '/');
      assert all[1..] == Split(portable, '/');
    } else {
      SplitOfDirectory(Init(segments), portable);
      NormalizeNames([], Init(segments), Split(portable, '/'));
      assert [] + Init(segments) == Init(segments);
    }
  }

  /**
   A link is accepted exactly when it is a Team slot with a target absolute on this host, or
   anything else with a relative target that, followed step by step from the directory of the
   link, never leaves the root.
   */
  lemma {:induction false} LinkAcceptedExactlyWhen(hostAbsolute: string -> bool, path: string, target: Option<string>)
    requires IsNormal(path)
    ensures ValidateArchiveSymbolicLink(hostAbsolute, path, target) == None <==>
            && target.Some? && target.value != "" && NUL !in target.value
            && if AbsoluteAnywhere(hostAbsolute, target.value) then IsTeamSlot(path) && hostAbsolute(target.value)
               else
                 && !IsTeamSlot(path) && !DriveLike(Portable(target.value))
                 && Follow(Init(Split(path, '/')), Split(Portable(target.value), '/')).Some?
  {
    var segments := Split(path, '/');
    assert ".." !in Init(segments) by {
      assert forall n | n in Init(segments) :: n in segments && IsName(n);
    }
    if target.Some? {
      LinkLeads(path, Portable(target.value));
      NormalizeFollows(Init(segments), Split(Portable(target.value), '/'));
    }
  }

  // Reading the archive

  predicate Extractable(k: EntryType) {
    !k.Other?
  }

  predicate EntryOk(hostAbsolute: string -> bool, raw: RawEntry) {
    var e := raw.entry;
    raw.meta ||
    (PathOk(e.path)
     && (Normal(e.path) == "" ||
         (Extractable(e.kind)
          && (e.kind == SymbolicLink ==>
              ValidateArchiveSymbolicLink(hostAbsolute, Normal(e.path), e.linkpath) == None))))
  }

  function Listed(raws: seq<RawEntry>): seq<Entry> {
    if raws == [] then []
    else
      var raw := raws[|raws| - 1];
      Listed(raws[..|raws| - 1])
      + if raw.meta || Normal(raw.entry.path) == "" then [] else [raw.entry.(path := Normal(raw.entry.path))]
  }

  /** Every entry that is not metadata and not the root itself, under its normalized path. */
  method ValidateArchive(hostAbsolute: string -> bool, raws: seq<RawEntry>) returns (entries: Option<seq<Entry>>)
    ensures entries == if (forall raw | raw in raws :: EntryOk(hostAbsolute, raw)) && ShapeOk(Listed(raws))
                       then Some(Listed(raws)) else None
  {
    var listed: seq<Entry> := [];
    for i := 0 to |raws|
      invariant listed == Listed(raws[..i]) && forall raw | raw in raws[..i] :: EntryOk(hostAbsolute, raw)
    {
      var raw := raws[i];
      assert raws[..i + 1] == raws[..i] + [raw];
      assert raws[..i + 1][..i] == raws[..i] && raw in raws;
      if !raw.meta {
        var path := NormalizeArchivePath(raw.entry.path);
        if path.None? { return None; }
        if path.value != "" {
          if !Extractable(raw.entry.kind) { return None; }
          if raw.entry.kind == SymbolicLink
             && ValidateArchiveSymbolicLink(hostAbsolute, path.value, raw.entry.linkpath) != None {
            return None;
          }
          listed := listed + [raw.entry.(path := path.value)];
        }
      }
    }
    assert raws[..|raws|] == raws;
    var bad := ValidateArchiveEntries(listed);
    entries := if bad == None then Some(listed) else None;
  }

  lemma {:induction false} ListedAreNormal(hostAbsolute: string -> bool, raws: seq<RawEntry>)
    requires forall raw | raw in raws :: EntryOk(hostAbsolute, raw)
    ensures forall e | e in Listed(raws) ::
              && IsNormal(e.path) && Extractable(e.kind)
              && (e.kind == SymbolicLink ==> ValidateArchiveSymbolicLink(hostAbsolute, e.path, e.linkpath) == None)
  {
    if raws != [] {
      var front, raw := raws[..|raws| - 1], raws[|raws| - 1];
      assert raw in raws && forall r | r in front :: r in raws;
      ListedAreNormal(hostAbsolute, front);
      if !raw.meta { NormalizedSegments(raw.entry.path); }
    }
  }

  // The shape of the whole

  const REQUIRED := ["bazilion.db", "auth.json"]
  const TRANSIENT := ["bazilion.db-wal", "bazilion.db-shm", "bazilion.db-journal", "daemon-runtime.json"]

  datatype ShapeError =
    Duplicate | ThroughLink | ThroughFile | Browsers | Missing(name: string) | Transient(name: string)

  predicate Distinct(es: seq<Entry>) {
    forall i, j | 0 <= i < j < |es| :: es[i].path != es[j].path
  }

  predicate StartsWith(s: string, prefix: string) {
    prefix <= s
  }

  function Ancestor(path: string, i: nat): string
    requires i <= |Split(path, '/')|
  {
    Join(Split(path, '/')[..i], '/')
  }

  predicate OnlyDirectoryAt(es: seq<Entry>, path: string) {
    forall a | a in es && a.path == path :: a.kind == Directory
  }

  /** Whatever the archive lists above an entry is a directory. */
  predicate Supported(es: seq<Entry>, e: Entry) {
    forall i | 1 <= i < |Split(e.path, '/')| :: OnlyDirectoryAt(es, Ancestor(e.path, i))
  }

  predicate InBrowsers(path: string) {
    path == "browsers" || StartsWith(path, "browsers/")
  }

  predicate HasFile(es: seq<Entry>, name: string) {
    exists e :: e in es && e.path == name && (e.kind == File || e.kind == OldFile)
  }

  predicate Lists(es: seq<Entry>, name: string) {
    exists e :: e in es && e.path == name
  }

  predicate ShapeOk(es: seq<Entry>) {
    && Distinct(es)
    && (forall e | e in es :: Supported(es, e))
    && (forall e | e in es :: !InBrowsers(e.path))
    && (forall name | name in REQUIRED :: HasFile(es, name))
    && (forall name | name in TRANSIENT :: !Lists(es, name))
  }

  ghost predicate Indexed(byPath: map<string, Entry>, es: seq<Entry>) {
    && (forall e | e in es :: e.path in byPath)
    && (forall p | p in byPath :: byPath[p] in es && byPath[p].path == p)
  }

  method ValidateArchiveEntries(es: seq<Entry>) returns (bad: Option<ShapeError>)
    ensures bad == None <==> ShapeOk(es)
    ensures bad == Some(Duplicate) <==> !Distinct(es)
  {
    var index := IndexByPath(es);
    if index.None? { return Some(Duplicate); }
    OnePerPath(index.value, es);
    bad := CheckAncestors(es, index.value);
    if bad != None { return; }
    for i := 0 to |es|
      invariant forall e | e in es[..i] :: !InBrowsers(e.path)
    {
      assert es[..i + 1] == es[..i] + [es[i]];
      if es[i].path == "browsers" || StartsWith(es[i].path, "browsers/") { return Some(Browsers); }
    }
    assert es[..|es|] == es;
    bad := CheckNames(es, index.value);
  }

  method IndexByPath(es: seq<Entry>) returns (index: Option<map<string, Entry>>)
    ensures index.Some? <==> Distinct(es)
    ensures index.Some? ==> Indexed(index.value, es)
  {
    var byPath: map<string, Entry> := map[];
    for i := 0 to |es|
      invariant Indexed(byPath, es[..i]) && Distinct(es[..i])
    {
      assert es[..i + 1] == es[..i] + [es[i]];
      if es[i].path in byPath {
        assert !Distinct(es) by {
          var k :| 0 <= k < i && es[k] == byPath[es[i].path];
        }
        return None;
      }
      byPath := byPath[es[i].path := es[i]];
    }
    assert es[..|es|] == es;
    index := Some(byPath);
  }

  method CheckNames(es: seq<Entry>, byPath: map<string, Entry>) returns (bad: Option<ShapeError>)
    requires Indexed(byPath, es) && forall e | e in es :: byPath[e.path] == e
    ensures bad == None <==>
            && (forall name | name in REQUIRED :: HasFile(es, name))
            && (forall name | name in TRANSIENT :: !Lists(es, name))
    ensures bad != Some(Duplicate)
  {
    for i := 0 to |REQUIRED|
      invariant forall name | name in REQUIRED[..i] :: HasFile(es, name)
    {
      var name := REQUIRED[i];
      assert REQUIRED[..i + 1] == REQUIRED[..i] + [name] && name in REQUIRED;
      if name !in byPath || (byPath[name].kind != File && byPath[name].kind != OldFile) {
        return Some(Missing(name));
      }
      assert HasFile(es, name) by { assert byPath[name] in es; }
    }
    for i := 0 to |TRANSIENT|
      invariant forall name | name in TRANSIENT[..i] :: !Lists(es, name)
    {
      var name := TRANSIENT[i];
      assert TRANSIENT[..i + 1] == TRANSIENT[..i] + [name] && name in TRANSIENT;
      if name in byPath {
        assert Lists(es, name) by { assert byPath[name] in es; }
        return Some(Transient(name));
      }
    }
    assert TRANSIENT[..|TRANSIENT|] == TRANSIENT && REQUIRED[..|REQUIRED|] == REQUIRED;
    bad := None;
  }

  lemma OnePerPath(byPath: map<string, Entry>, es: seq<Entry>)
    requires Indexed(byPath, es) && Distinct(es)
    ensures forall e | e in es :: byPath[e.path] == e
  {
    forall e | e in es ensures byPath[e.path] == e {
      var i :| 0 <= i < |es| && es[i] == e;
      var j :| 0 <= j < |es| && es[j] == byPath[e.path];
    }
  }

  method CheckAncestors(es: seq<Entry>, byPath: map<string, Entry>) returns (bad: Option<ShapeError>)
    requires Indexed(byPath, es) && forall e | e in es :: byPath[e.path] == e
    ensures bad == None <==> forall e | e in es :: Supported(es, e)
    ensures bad == None || bad == Some(ThroughLink) || bad == Some(ThroughFile)
  {
    var symlinks := set e | e in es && e.kind == SymbolicLink :: e.path;
    for k := 0 to |es|
      invariant forall e | e in es[..k] :: Supported(es, e)
    {
      var e := es[k];
      assert es[..k + 1] == es[..k] + [e];
      var segments := Split(e.path, '/');
      for i := 1 to |segments|
        invariant forall j | 1 <= j < i :: OnlyDirectoryAt(es, Ancestor(e.path, j))
      {
        var ancestor := Join(segments[..i], '/');
        assert ancestor == Ancestor(e.path, i);
        if ancestor in symlinks {
          assert !OnlyDirectoryAt(es, ancestor);
          return Some(ThroughLink);
        }
        if ancestor in byPath && byPath[ancestor].kind != Directory {
          assert !OnlyDirectoryAt(es, ancestor);
          return Some(ThroughFile);
        }
        assert OnlyDirectoryAt(es, ancestor);
      }
    }
    assert es[..|es|] == es;
    bad := None;
  }
}
