/** Path texts split into names and put together again, as the runtime and the store do before
    they use a path as a key. */
module Names {
  import opened Bytes
  import opened Paths

  // ----- Splitting and joining -----

  function LastName(s: string): string {
    s[LastSlash(s) + 1..]
  }

  /** `s.split("/")`. */
  function Split(s: string): (parts: seq<string>)
    ensures |parts| > 0
    decreases |s|
  {
    if Nested(s) then Split(Parent(s)) + [LastName(s)] else [s]
  }

  /** `parts.join("/")`. */
  function Join(parts: seq<string>): string {
    if parts == [] then ""
    else if |parts| == 1 then parts[0]
    else Join(parts[..|parts| - 1]) + "/" + parts[|parts| - 1]
  }

  predicate Skipped(part: string) {
    part == "" || part == "."
  }

  /** The parts that name something. */
  function Kept(parts: seq<string>): seq<string> {
    if parts == [] then []
    else
      var rest := Kept(parts[..|parts| - 1]);
      if Skipped(parts[|parts| - 1]) then rest else rest + [parts[|parts| - 1]]
  }

  predicate Climbs(parts: seq<string>) {
    ".." in parts
  }

  /** The loop both normalizers share: `None` when a part climbs. */
  method KeepParts(s: string) returns (r: Option<seq<string>>)
    ensures r == if Climbs(Split(s)) then None else Some(Kept(Split(s)))
  {
    var parts := Split(s);
    var kept: seq<string> := [];
    for i := 0 to |parts|
      invariant kept == Kept(parts[..i])
      invariant !Climbs(parts[..i])
    {
      KeptStep(parts, i);
      if !Skipped(parts[i]) {
        if parts[i] == ".." {
          return None;
        }
        kept := kept + [parts[i]];
      }
    }
    assert parts[..|parts|] == parts;
    r := Some(kept);
  }

  lemma KeptStep(parts: seq<string>, i: nat)
    requires i < |parts|
    ensures Kept(parts[..i + 1]) == if Skipped(parts[i]) then Kept(parts[..i]) else Kept(parts[..i]) + [parts[i]]
    ensures Climbs(parts[..i + 1]) <==> Climbs(parts[..i]) || parts[i] == ".."
    ensures parts[i] == ".." ==> Climbs(parts)
  {
    assert parts[..i + 1][..i] == parts[..i] && parts[..i + 1] == parts[..i] + [parts[i]];
  }

  // ----- Well-formed paths -----

  predicate PlainName(n: string) {
    n != "" && n != "." && n != ".." && (forall i :: 0 <= i < |n| ==> n[i] != '/' && n[i] != '\0')
  }

  /** A path made of plain names. */
  predicate Segmented(p: Path)
    decreases |p|
  {
    if Nested(p) then Segmented(Parent(p)) && PlainName(LastName(p)) else PlainName(p)
  }

  /** A key of the workspace: the root, or a path made of plain names. */
  predicate WellFormed(p: Path) {
    p == "" || Segmented(p)
  }

  predicate NoNul(s: string) {
    forall i :: 0 <= i < |s| ==> s[i] != '\0'
  }

  lemma ParentAndName(s: string)
    requires Nested(s)
    ensures s == Parent(s) + "/" + LastName(s)
  {
    var i := LastSlash(s);
    assert s[i] == '/';
    assert s == s[..i] + [s[i]] + s[i + 1..];
  }

  lemma {:induction false} SplitJoins(s: string)
    ensures Join(Split(s)) == s
    decreases |s|
  {
    if Nested(s) {
      SplitJoins(Parent(s));
      ParentAndName(s);
      var parts := Split(s);
      assert parts[..|parts| - 1] == Split(Parent(s));
    }
  }

  lemma {:induction false} SegmentedKept(p: Path)
    requires Segmented(p)
    ensures Kept(Split(p)) == Split(p) && !Climbs(Split(p))
    decreases |p|
  {
    if Nested(p) {
      SegmentedKept(Parent(p));
      var parts := Split(p);
      assert parts[..|parts| - 1] == Split(Parent(p));
    } else {
      assert [p][..0] == [];
      assert Kept([]) == [];
    }
  }

  predicate PlainNames(parts: seq<string>) {
    forall i :: 0 <= i < |parts| ==> PlainName(parts[i])
  }

  /** Every part of a text without slashes in its names. */
  predicate SlashFree(parts: seq<string>) {
    forall i :: 0 <= i < |parts| ==> forall j :: 0 <= j < |parts[i]| ==> parts[i][j] != '/' && parts[i][j] != '\0'
  }

  lemma {:induction false} SplitSlashFree(s: string)
    requires NoNul(s)
    ensures SlashFree(Split(s))
    decreases |s|
  {
    if Nested(s) {
      SplitSlashFree(Parent(s));
    }
  }

  lemma {:induction false} KeptPlain(parts: seq<string>)
    requires SlashFree(parts) && !Climbs(parts)
    ensures PlainNames(Kept(parts))
    decreases |parts|
  {
    if parts != [] {
      var front := parts[..|parts| - 1];
      assert SlashFree(front);
      KeptPlain(front);
      assert parts[|parts| - 1] in parts;
    }
  }

  /** Adding a name to a path. */
  lemma AppendedName(p: Path, n: string)
    requires PlainName(n)
    ensures Nested(p + "/" + n) && Parent(p + "/" + n) == p && LastName(p + "/" + n) == n
  {
    var k := p + "/" + n;
    assert k[|p|] == '/';
    assert forall j :: |p| < j < |k| ==> k[j] == n[j - |p| - 1];
    LastSlashIs(k, |p|);
    assert k[..|p|] == p;
  }

  lemma PlainNotNested(n: string)
    requires PlainName(n)
    ensures !Nested(n)
  {
  }

  lemma {:induction false} JoinSegmented(parts: seq<string>)
    requires parts != [] && PlainNames(parts)
    ensures Segmented(Join(parts))
    decreases |parts|
  {
    var n := parts[|parts| - 1];
    if |parts| == 1 {
      PlainNotNested(n);
    } else {
      JoinSegmented(parts[..|parts| - 1]);
      AppendedName(Join(parts[..|parts| - 1]), n);
    }
  }

  /** Whatever the text, its kept parts make a well-formed path. */
  lemma KeptWellFormed(s: string)
    requires NoNul(s) && !Climbs(Split(s))
    ensures WellFormed(Join(Kept(Split(s))))
  {
    SplitSlashFree(s);
    KeptPlain(Split(s));
    if Kept(Split(s)) != [] {
      JoinSegmented(Kept(Split(s)));
    }
  }

  // ----- Rebasing keeps paths well-formed -----

  lemma {:induction false} RebaseSegmented(k: Path, p: Path, q: Path)
    requires Segmented(k) && Segmented(q) && AtOrUnder(p, k)
    ensures Segmented(Rebase(k, p, q))
    decreases |k|
  {
    if k != p {
      UnderParent(p, k);
      RebaseSegmented(Parent(k), p, q);
      RebaseParent(k, p, q);
      RebaseName(k, p, q);
    }
  }

  lemma RebaseName(k: Path, p: Path, q: Path)
    requires Under(p, k)
    ensures LastName(Rebase(k, p, q)) == LastName(k)
  {
    var rest := k[|p|..];
    var j := LastSlash(rest);
    assert k == p + rest && rest[0] == '/';
    NameAfter(p, rest, j);
    NameAfter(q, rest, j);
  }

  lemma NameAfter(front: string, rest: string, j: nat)
    requires j < |rest| && rest[j] == '/' && (forall i :: j < i < |rest| ==> rest[i] != '/')
    ensures LastName(front + rest) == rest[j + 1..]
  {
    SlashAfter(front, rest, j);
    assert (front + rest)[|front| + j + 1..] == rest[j + 1..];
  }

  // ----- The runtime's paths -----

  const MOUNT: string := "/workspace"

  predicate StartsWith(s: string, prefix: string) {
    |prefix| <= |s| && s[..|prefix|] == prefix
  }

  /** `mountedRelativePath`: an absolute path inside the workspace, made relative. */
  function MountedRelative(path: string): Option<string> {
    if path == MOUNT || path == MOUNT + "%" then Some("")
    else if StartsWith(path, MOUNT + "/") then Some(path[|MOUNT| + 1..])
    else if StartsWith(path, MOUNT + "%/") then Some(path[|MOUNT| + 2..])
    else None
  }

  /** `normalizeWasiPath`; `None` is refused, an empty text is the base itself. */
  function NormalizeWasiPath(path: string): Option<string> {
    if path == "." then Some("")
    else if StartsWith(path, "/") || path == "" || !NoNul(path) || Climbs(Split(path)) then None
    else if Kept(Split(path)) == [] then None
    else Some(Join(Kept(Split(path))))
  }

  function Resolve(base: Path, path: string): Option<Path> {
    if StartsWith(path, "/") then None
    else
      var n := NormalizeWasiPath(path);
      if n.None? then None else if n.value == "" then Some(base) else Some(if base == "" then n.value else base + "/" + n.value)
  }

  /** `resolveMountedPath` on the writable workspace. */
  function ResolveMounted(base: Path, path: string): Option<Path> {
    var absolute := MountedRelative(path);
    if absolute.Some? then Resolve("", if absolute.value == "" then "." else absolute.value) else Resolve(base, path)
  }

  lemma {:induction false} ConcatSegmented(p: Path, n: Path)
    requires Segmented(p) && Segmented(n)
    ensures Segmented(p + "/" + n)
    decreases |n|
  {
    var k := p + "/" + n;
    if Nested(n) {
      var i := LastSlash(n);
      ConcatSegmented(p, Parent(n));
      var at := |p| + 1 + i;
      assert k[at] == n[i];
      assert forall j :: at < j < |k| ==> k[j] == n[j - |p| - 1];
      LastSlashIs(k, at);
      assert k[..at] == p + "/" + Parent(n);
      assert k[at + 1..] == LastName(n);
    } else {
      AppendedName(p, n);
    }
  }

  lemma NormalizedSegmented(path: string)
    requires NormalizeWasiPath(path).Some? && NormalizeWasiPath(path).value != ""
    ensures Segmented(NormalizeWasiPath(path).value)
  {
    KeptWellFormed(path);
  }

  /** A guest path resolves to a well-formed path, inside the base unless it is absolute. */
  lemma ResolveConfined(base: Path, path: string)
    requires WellFormed(base) && ResolveMounted(base, path).Some?
    ensures var k := ResolveMounted(base, path).value;
            && WellFormed(k)
            && (MountedRelative(path).None? && base != "" ==> AtOrUnder(base, k))
  {
    var absolute := MountedRelative(path);
    var from := if absolute.Some? then "" else base;
    var text := if absolute.None? then path else if absolute.value == "" then "." else absolute.value;
    var n := NormalizeWasiPath(text);
    if n.value != "" {
      NormalizedSegmented(text);
      if from != "" {
        ConcatSegmented(from, n.value);
        assert (from + "/" + n.value)[..|from|] == from;
      }
    }
  }

  // ----- What a guest's text means -----

  /** The kept parts of two lists are those of one and then those of the other. */
  lemma {:induction false} KeptConcat(a: seq<string>, b: seq<string>)
    ensures Kept(a + b) == Kept(a) + Kept(b)
    decreases |b|
  {
    if b == [] {
      assert a + b == a && Kept(a) + [] == Kept(a);
    } else {
      var front, last := b[..|b| - 1], b[|b| - 1];
      KeptConcat(a, front);
      assert (a + b)[..|a + b| - 1] == a + front && (a + b)[|a + b| - 1] == last;
      assert Kept(a) + (Kept(front) + [last]) == (Kept(a) + Kept(front)) + [last];
    }
  }

  /** One part is kept unless it is empty or a dot. */
  lemma KeptAlone(part: string)
    ensures Kept([part]) == if part == "" || part == "." then [] else [part]
  {
    assert [part][..0] == [];
    assert Kept([]) == [];
  }

  lemma {:induction false} SegmentedText(p: Path)
    requires Segmented(p)
    ensures p != "" && p[0] != '/' && NoNul(p) && p != "."
    decreases |p|
  {
    if Nested(p) {
      SegmentedText(Parent(p));
      ParentAndName(p);
      assert p[0] == Parent(p)[0];
      assert forall i :: 0 <= i < |p| ==> p[i] == if i < |Parent(p)| then Parent(p)[i] else if i == |Parent(p)| then '/' else LastName(p)[i - |Parent(p)| - 1];
      assert |p| > 1;
    }
  }

  lemma PlainNormalizes(p: Path)
    requires Segmented(p)
    ensures NormalizeWasiPath(p) == Some(p) && !StartsWith(p, "/") && MountedRelative(p).None?
  {
    SegmentedText(p);
    SegmentedKept(p);
    SplitJoins(p);
    NotMounted(p);
  }

  lemma NotMounted(path: string)
    requires path != "" && path[0] != '/'
    ensures MountedRelative(path).None? && !StartsWith(path, "/")
  {
    assert MOUNT[0] == '/' && (MOUNT + "/")[0] == '/' && (MOUNT + "%/")[0] == '/' && (MOUNT + "%")[0] == '/';
  }

  /** A path of plain names is taken below the base directory; after either spelling of the mount
      point, from the root of the workspace. */
  lemma NamesResolve(base: Path, p: Path)
    requires Segmented(p)
    ensures ResolveMounted(base, p) == Some(if base == "" then p else base + "/" + p)
    ensures ResolveMounted(base, MOUNT + "/" + p) == Some(p)
    ensures ResolveMounted(base, MOUNT + "%/" + p) == Some(p)
  {
    PlainNormalizes(p);
    SegmentedText(p);
    AfterMount(p);
  }

  lemma AfterMount(p: Path)
    ensures MountedRelative(MOUNT + "/" + p) == Some(p)
    ensures MountedRelative(MOUNT + "%/" + p) == Some(p)
  {
    var a, b := MOUNT + "/" + p, MOUNT + "%/" + p;
    assert a[..|MOUNT| + 1] == MOUNT + "/" && a[|MOUNT| + 1..] == p;
    assert b[..|MOUNT| + 2] == MOUNT + "%/" && b[|MOUNT| + 2..] == p;
    assert a[|MOUNT|] == '/' && b[|MOUNT|] == '%' && |b| > |MOUNT| + 1;
    assert (MOUNT + "/")[|MOUNT|] == '/';
    assert b[..|MOUNT| + 1][|MOUNT|] == '%';
  }

  /** A dot is the base directory, and either spelling of the mount point is the root. */
  lemma DotsResolve(base: Path)
    ensures ResolveMounted(base, ".") == Some(base)
    ensures ResolveMounted(base, MOUNT) == Some("") && ResolveMounted(base, MOUNT + "%") == Some("")
    ensures MOUNT == "/workspace"
  {
    NotMounted(".");
    assert !StartsWith(".", "/");
  }

  /** Nothing else that starts with a slash, nothing that climbs, and no empty text is resolved. */
  lemma OthersRefused(base: Path, path: string)
    ensures path == "" ==> ResolveMounted(base, path) == None
    ensures path != "" && path[0] == '/' && MountedRelative(path).None? ==> ResolveMounted(base, path) == None
    ensures path != "" && path[0] != '/' && ".." in Split(path) ==> ResolveMounted(base, path) == None
    ensures MountedRelative(path).Some? ==>
              path == MOUNT || path == MOUNT + "%" || (exists p :: path == MOUNT + "/" + p) || (exists p :: path == MOUNT + "%/" + p)
  {
    if path != "" && path[0] == '/' {
      assert path[..1] == "/";
    }
    if path != "" && path[0] != '/' {
      NotMounted(path);
      assert !Nested(".") && Split(".") == ["."];
    }
    if StartsWith(path, MOUNT + "/") {
      assert path == MOUNT + "/" + path[|MOUNT| + 1..];
    } else if StartsWith(path, MOUNT + "%/") {
      assert path == MOUNT + "%/" + path[|MOUNT| + 2..];
    }
  }
}
