/** The paths of the workspace store: `normalizeWorkspacePath` and when it gives a stored path
    back unchanged. */
module StorePaths {
  import opened Bytes
  import opened Paths
  import opened Names

  /** The characters `String.prototype.trim` removes. */
  predicate IsSpace(c: char) {
    || '\t' <= c <= '\r' || c == ' ' || c == '\U{00A0}' || c == '\U{1680}' || '\U{2000}' <= c <= '\U{200A}'
    || c == '\U{2028}' || c == '\U{2029}' || c == '\U{202F}' || c == '\U{205F}' || c == '\U{3000}' || c == '\U{FEFF}'
  }

  /** The same by their code points: the five controls from a tab to a carriage return, the space, and
      what Unicode calls a space, a line separator or a byte-order mark. */
  lemma SpacesAre(c: char)
    ensures IsSpace(c) <==>
            var n := c as int;
            9 <= n <= 13 || n == 32 || n == 160 || n == 5760 || 8192 <= n <= 8202 || n == 8232 || n == 8233 || n == 8239
            || n == 8287 || n == 12288 || n == 65279
  {
  }

  function TrimEnd(s: string): (r: string)
    ensures |r| <= |s|
  {
    if s != "" && IsSpace(s[|s| - 1]) then TrimEnd(s[..|s| - 1]) else s
  }

  function TrimStart(s: string): (r: string)
    ensures |r| <= |s|
  {
    if s != "" && IsSpace(s[0]) then TrimStart(s[1..]) else s
  }

  function Trim(s: string): string {
    TrimEnd(TrimStart(s))
  }

  predicate HasBackslash(s: string) {
    exists i :: 0 <= i < |s| && s[i] == '\\'
  }

  predicate Printable(s: string) {
    NoNul(s) && !HasBackslash(s)
  }

  lemma PrintableAppended(a: string, b: string)
    requires Printable(a) && Printable(b)
    ensures Printable(a + b)
  {
    var s := a + b;
    forall i | 0 <= i < |s| ensures s[i] != '\0' && s[i] != '\\' {
      assert s[i] == if i < |a| then a[i] else b[i - |a|];
    }
  }

  lemma PrintablePrefix(s: string, n: nat)
    requires Printable(s) && n <= |s|
    ensures Printable(s[..n])
  {
  }

  lemma PrintableSuffix(s: string, n: nat)
    requires Printable(s) && n <= |s|
    ensures Printable(s[n..])
  {
  }

  /** The part below the mount point; `None` for other absolute paths. */
  function BelowMount(raw: string): Option<string> {
    if raw == MOUNT then Some("")
    else if StartsWith(raw, MOUNT + "/") then Some(raw[|MOUNT| + 1..])
    else if StartsWith(raw, "/") then None
    else Some(raw)
  }

  lemma BelowPrintable(raw: string)
    requires Printable(raw) && BelowMount(raw).Some?
    ensures Printable(BelowMount(raw).value)
  {
    if StartsWith(raw, MOUNT + "/") {
      PrintableSuffix(raw, |MOUNT| + 1);
    }
  }

  /** `normalizeWorkspacePath`: the relative path, or `None` for an invalid one. */
  function Normalize(path: string): Option<Key> {
    var raw := Trim(path);
    var below := BelowMount(raw);
    if raw == "" || !Printable(raw) || below.None? || Climbs(Split(below.value)) then None
    else
      BelowPrintable(raw);
      NormalizeStorable(below.value);
      Some(Join(Kept(Split(below.value))))
  }

  /** The mount point taken off an absolute path. */
  method RelativePart(raw: string) returns (r: Option<string>)
    ensures r == BelowMount(raw)
  {
    var relative := raw;
    if relative == MOUNT {
      relative := "";
    } else if StartsWith(relative, MOUNT + "/") {
      relative := relative[|MOUNT| + 1..];
    } else if StartsWith(relative, "/") {
      return None;
    }
    r := Some(relative);
  }

  /** `normalizeWorkspacePath` step by step. */
  method NormalizeWorkspacePath(path: string) returns (r: Option<Key>)
    ensures r == Normalize(path)
  {
    var raw := Trim(path);
    if raw == "" || !NoNul(raw) || HasBackslash(raw) {
      return None;
    }
    var below := RelativePart(raw);
    if below.None? {
      return None;
    }
    var relative := below.value;
    BelowPrintable(raw);
    var parts := KeepParts(relative);
    if parts.None? {
      return None;
    }
    NormalizeStorable(relative);
    r := Some(Join(parts.value));
  }

  /** What the store may use as a key. */
  predicate Storable(k: Path) {
    WellFormed(k) && !HasBackslash(k)
  }

  type Key = k: Path | Storable(k)

  // The two facts about a key that the proofs about whole stores pass around unopened.

  predicate AskKey(u: int) {
    true
  }

  ghost predicate IsKey(k: Path) {
    forall u {:trigger AskKey(u)} :: AskKey(u) ==> Storable(k)
  }

  ghost predicate PathOf(path: string, k: Path) {
    forall u {:trigger AskKey(u)} :: AskKey(u) ==> path == WorkspacePath(k)
  }

  /** The text under which a key is kept and exported. */
  function WorkspacePath(k: Path): string {
    if k == "" then MOUNT else MOUNT + "/" + k
  }

  // ----- Normalizing keeps characters -----

  predicate Clean(parts: seq<string>) {
    forall i :: 0 <= i < |parts| ==> !HasBackslash(parts[i])
  }

  lemma {:induction false} SplitClean(s: string)
    requires !HasBackslash(s)
    ensures Clean(Split(s))
    decreases |s|
  {
    if Nested(s) {
      SplitClean(Parent(s));
    }
  }

  lemma {:induction false} KeptClean(parts: seq<string>)
    requires Clean(parts)
    ensures Clean(Kept(parts))
    decreases |parts|
  {
    if parts != [] {
      KeptClean(parts[..|parts| - 1]);
    }
  }

  lemma {:induction false} JoinClean(parts: seq<string>)
    requires Clean(parts)
    ensures !HasBackslash(Join(parts))
    decreases |parts|
  {
    if |parts| > 1 {
      var front, n := Join(parts[..|parts| - 1]), parts[|parts| - 1];
      JoinClean(parts[..|parts| - 1]);
      assert forall i :: 0 <= i < |front| ==> front[i] != '\\';
      assert forall i :: 0 <= i < |n| ==> n[i] != '\\';
    }
  }

  lemma NormalizeStorable(s: string)
    requires Printable(s) && !Climbs(Split(s))
    ensures Storable(Join(Kept(Split(s))))
  {
    KeptWellFormed(s);
    SplitClean(s);
    KeptClean(Split(s));
    JoinClean(Kept(Split(s)));
  }

  // ----- What a stored path is read as -----

  lemma {:induction false} LongestUnspaced(s: string, n: nat)
    requires n <= |s| && (n > 0 ==> !IsSpace(s[n - 1])) && (forall i :: n <= i < |s| ==> IsSpace(s[i]))
    ensures TrimEnd(s) == s[..n]
    decreases |s|
  {
    if n < |s| {
      LongestUnspaced(s[..|s| - 1], n);
      assert s[..|s| - 1][..n] == s[..n];
    } else {
      assert s[..n] == s;
    }
  }

  /** `t` is `s` without the white space at its end. */
  ghost predicate Trims(t: string, s: string) {
    && |t| <= |s| && t == s[..|t|]
    && (t != "" ==> !IsSpace(t[|t| - 1]))
    && (forall i :: |t| <= i < |s| ==> IsSpace(s[i]))
  }

  lemma {:induction false} TrimEndTrims(s: string)
    ensures Trims(TrimEnd(s), s)
    decreases |s|
  {
    if s != "" && IsSpace(s[|s| - 1]) {
      var front, t := s[..|s| - 1], TrimEnd(s);
      TrimEndTrims(front);
      assert t == s[..|t|];
      forall i | |t| <= i < |s| ensures IsSpace(s[i]) {
        assert i < |front| ==> s[i] == front[i];
      }
    }
  }

  lemma TrimsIs(t: string, s: string)
    requires Trims(t, s)
    ensures TrimEnd(s) == t
  {
    LongestUnspaced(s, |t|);
  }

  lemma TrimsAppended(front: string, t: string, s: string)
    requires front != "" && !IsSpace(front[|front| - 1]) && Trims(t, s)
    ensures Trims(front + t, front + s)
  {
    var a, b := front + t, front + s;
    assert b[..|a|] == front + s[..|t|];
    assert a[|a| - 1] == if t == "" then front[|front| - 1] else t[|t| - 1];
    forall i | |a| <= i < |b| ensures IsSpace(b[i]) {
      assert b[i] == s[i - |front|];
    }
  }

  lemma TrimOfTrimmed(s: string, t: string)
    requires s != "" && !IsSpace(s[0]) && Trims(t, s)
    ensures Trim(s) == t
  {
    TrimsIs(t, s);
  }

  /** What the store makes of the text of a key: trimming takes the white space off the last name,
      and what is left may name nothing, or climb. */
  function Reread(k: Path): Option<Path> {
    if k == "" then Some("") else RereadWith(k, TrimEnd(LastName(k)))
  }

  function RereadWith(k: Path, t: string): Option<Path> {
    if t == ".." then None
    else if Skipped(t) then Some(Parent(k))
    else if Nested(k) then Some(Parent(k) + "/" + t)
    else Some(t)
  }

  lemma SplitAppended(p: Path, n: string)
    requires forall i :: 0 <= i < |n| ==> n[i] != '/'
    ensures Split(p + "/" + n) == Split(p) + [n]
  {
    var k := p + "/" + n;
    assert k[|p|] == '/';
    assert forall j :: |p| < j < |k| ==> k[j] == n[j - |p| - 1];
    LastSlashIs(k, |p|);
    assert k[..|p|] == p && k[|p| + 1..] == n;
  }

  lemma SplitSingle(n: string)
    requires forall i :: 0 <= i < |n| ==> n[i] != '/'
    ensures Split(n) == [n]
  {
  }

  lemma KeptAppended(parts: seq<string>, n: string)
    ensures Kept(parts + [n]) == if Skipped(n) then Kept(parts) else Kept(parts) + [n]
    ensures Climbs(parts + [n]) <==> Climbs(parts) || n == ".."
  {
    assert (parts + [n])[..|parts|] == parts;
    assert Climbs(parts + [n]) <== Climbs(parts) || n == ".." by {
      assert (parts + [n])[|parts|] == n;
    }
  }

  lemma JoinAppended(parts: seq<string>, n: string)
    requires parts != []
    ensures Join(parts + [n]) == Join(parts) + "/" + n
  {
    assert (parts + [n])[..|parts|] == parts;
  }

  /** What is kept of a key with another last name, and whether it climbs. */
  lemma RenamedKept(k: Path, below: string, t: string)
    requires Segmented(k) && (forall i :: 0 <= i < |t| ==> t[i] != '/')
    requires below == if Nested(k) then Parent(k) + "/" + t else t
    ensures Climbs(Split(below)) <==> RereadWith(k, t).None?
    ensures RereadWith(k, t).Some? ==> Join(Kept(Split(below))) == RereadWith(k, t).value
  {
    if Nested(k) {
      NestedKept(Parent(k), t);
    } else {
      SplitSingle(t);
      SingleKept(t);
    }
  }

  lemma NestedKept(p: Path, t: string)
    requires Segmented(p) && forall i :: 0 <= i < |t| ==> t[i] != '/'
    ensures Climbs(Split(p + "/" + t)) <==> t == ".."
    ensures Join(Kept(Split(p + "/" + t))) == if Skipped(t) then p else p + "/" + t
  {
    SplitAppended(p, t);
    SegmentedKept(p);
    SplitJoins(p);
    KeptAppended(Split(p), t);
    JoinAppended(Split(p), t);
  }

  lemma SingleKept(t: string)
    ensures Climbs([t]) <==> t == ".."
    ensures Join(Kept([t])) == if Skipped(t) then "" else t
  {
    var none: seq<string> := [];
    assert none + [t] == [t];
    KeptAppended(none, t);
  }

  lemma {:induction false} SegmentedNoNul(k: Path)
    requires Segmented(k)
    ensures NoNul(k)
    decreases |k|
  {
    if Nested(k) {
      SegmentedNoNul(Parent(k));
      ParentAndName(k);
      var a, b := Parent(k), LastName(k);
      assert forall i :: 0 <= i < |a| ==> a[i] != '\0';
      assert forall i :: 0 <= i < |b| ==> b[i] != '\0';
    }
  }

  /** What every stored path but the root starts with. */
  function Front(): string {
    MOUNT + "/"
  }

  lemma FrontIsPlain(front: string)
    requires front == Front()
    ensures front != "" && !IsSpace(front[0]) && !IsSpace(front[|front| - 1]) && Printable(front)
  {
  }

  lemma BelowFront(raw: string, front: string, below: string)
    requires front == Front() && raw == front + below
    ensures BelowMount(raw) == Some(below)
  {
    assert raw[..|front|] == front && raw[|front|..] == below;
  }

  lemma NormalizesTo(path: string, raw: string, below: string)
    requires Trim(path) == raw && raw != "" && Printable(raw) && BelowMount(raw) == Some(below)
    ensures Normalize(path) == if Climbs(Split(below)) then None else Some(Join(Kept(Split(below))))
  {
  }

  lemma PrefixFree(t: string, s: string)
    requires Trims(t, s) && (forall i :: 0 <= i < |s| ==> s[i] != '/')
    ensures forall i :: 0 <= i < |t| ==> t[i] != '/'
  {
    assert forall i :: 0 <= i < |t| ==> t[i] == s[i];
  }

  lemma NameFree(k: Path)
    ensures forall i :: 0 <= i < |LastName(k)| ==> LastName(k)[i] != '/'
  {
  }

  /** A key is what is before its last name, and that name. */
  lemma KeyParts(k: Path) returns (before: string)
    ensures k == before + LastName(k)
    ensures before == if Nested(k) then Parent(k) + "/" else ""
  {
    before := if Nested(k) then Parent(k) + "/" else "";
    if Nested(k) {
      ParentAndName(k);
    } else {
      assert LastName(k) == k;
    }
  }

  lemma LastOf(a: string, b: string)
    requires a != "" && !IsSpace(a[|a| - 1]) && (b == "" || !IsSpace(b[|b| - 1]))
    ensures !IsSpace((a + b)[|a + b| - 1])
  {
    assert (a + b)[|a + b| - 1] == if b == "" then a[|a| - 1] else b[|b| - 1];
  }

  lemma TextTrims(k: Path, before: string, name: string, t: string, front: string)
    requires k == before + name && Trims(t, name) && front != "" && !IsSpace(front[0]) && !IsSpace(front[|front| - 1])
    requires before == "" || !IsSpace(before[|before| - 1])
    ensures Trim(front + k) == front + (before + t)
  {
    LastOf(front, before);
    TrimsAppended(front + before, t, name);
    assert (front + before) + name == front + k && (front + before) + t == front + (before + t);
    assert (front + k)[0] == front[0];
    TrimOfTrimmed(front + k, front + (before + t));
  }

  lemma TextPrintable(k: Path, before: string, name: string, t: string, front: string)
    requires k == before + name && |t| <= |name| && t == name[..|t|] && Printable(k) && Printable(front)
    ensures Printable(front + (before + t))
  {
    var below := before + t;
    PrintablePrefix(k, |below|);
    assert k[..|below|] == below;
    PrintableAppended(front, below);
  }

  /** The text of a key, read with its last name trimmed to `t`. */
  lemma TextReads(k: Path, before: string, name: string, t: string, below: string, front: string)
    requires k == before + name && Trims(t, name) && Printable(k) && front == Front() && below == before + t
    requires before == "" || !IsSpace(before[|before| - 1])
    ensures Normalize(front + k) == if Climbs(Split(below)) then None else Some(Join(Kept(Split(below))))
  {
    FrontIsPlain(front);
    TextTrims(k, before, name, t, front);
    TextPrintable(k, before, name, t, front);
    BelowFront(front + below, front, below);
    NormalizesTo(front + k, front + below, below);
  }

  /** Every stored path is read as this. */
  lemma ReadsAsReread(k: Path)
    requires Storable(k)
    ensures Normalize(WorkspacePath(k)) == Reread(k)
  {
    if k == "" {
      RootNormalizes(WorkspacePath(k), k);
    } else {
      var before := KeyParts(k);
      var name, t := LastName(k), TrimEnd(LastName(k));
      TrimEndTrims(name);
      SegmentedNoNul(k);
      assert before == "" || before[|before| - 1] == '/';
      TextReads(k, before, name, t, before + t, Front());
      NameFree(k);
      PrefixFree(t, name);
      RenamedKept(k, before + t, t);
    }
  }

  /** With a slash after it, a stored path is read as its own key whatever it ends in. */
  lemma SlashedReads(k: Path)
    requires Storable(k) && k != ""
    ensures Normalize(WorkspacePath(k) + "/") == Some(k)
  {
    var front, below := Front(), k + "/" + "";
    FrontIsPlain(front);
    SegmentedNoNul(k);
    var path := front + below;
    assert path == WorkspacePath(k) + "/";
    assert path[0] == front[0] && path[|path| - 1] == '/';
    NothingTrimmed(path);
    SlashPrintable(k, below);
    PrintableAppended(front, below);
    BelowFront(path, front, below);
    NestedKept(k, "");
    NormalizesTo(path, path, below);
  }

  lemma SlashPrintable(k: Path, below: string)
    requires Printable(k) && below == k + "/" + ""
    ensures Printable(below)
  {
    assert Printable("/");
    PrintableAppended(k, "/");
    assert below == k + "/";
  }

  lemma NothingTrimmed(s: string)
    requires s != "" && !IsSpace(s[0]) && !IsSpace(s[|s| - 1])
    ensures Trim(s) == s
  {
  }

  lemma RootIsPlain(m: string, below: string)
    requires m == MOUNT && below == ""
    ensures m != "" && !IsSpace(m[0]) && !IsSpace(m[|m| - 1]) && Printable(m) && BelowMount(m) == Some(below)
  {
  }

  lemma RootNormalizes(m: string, below: string)
    requires m == MOUNT && below == ""
    ensures Normalize(m) == Some(below)
  {
    RootIsPlain(m, below);
    NothingTrimmed(m);
    SplitSingle(below);
    SingleKept(below);
    NormalizesTo(m, m, below);
  }

  // ----- When it is the key again -----

  /** The key ends in white space, which an import trims off. */
  predicate EndsInSpace(k: Path) {
    k != "" && IsSpace(k[|k| - 1])
  }

  lemma TrimsAll(t: string, name: string)
    requires Trims(t, name) && name != "" && |t| == |name|
    ensures t == name && !IsSpace(name[|name| - 1])
  {
    assert name[..|t|] == name;
  }

  lemma TrimsSome(t: string, name: string)
    requires Trims(t, name) && |t| < |name|
    ensures IsSpace(name[|name| - 1])
  {
  }

  lemma RereadPlain(k: Path, name: string)
    requires Segmented(k) && name == LastName(k)
    ensures name != "" && name[|name| - 1] == k[|k| - 1] && RereadWith(k, name) == Some(k)
  {
    var before := KeyParts(k);
  }

  lemma RereadShorter(k: Path, name: string, t: string)
    requires Segmented(k) && name == LastName(k) && |t| < |name| && RereadWith(k, t).Some?
    ensures |RereadWith(k, t).value| < |k|
  {
    var before := KeyParts(k);
  }

  lemma LastCharacter(k: Path, name: string)
    requires k != "" && name == LastName(k) && name != ""
    ensures EndsInSpace(k) <==> IsSpace(name[|name| - 1])
  {
  }

  lemma NotTrimmed(k: Path, name: string, t: string)
    requires Segmented(k) && name == LastName(k) && name != "" && Trims(t, name) && |t| == |name|
    ensures RereadWith(k, t) == Some(k) && !EndsInSpace(k)
  {
    TrimsAll(t, name);
    RereadPlain(k, name);
    LastCharacter(k, name);
  }

  lemma ReallyTrimmed(k: Path, name: string, t: string)
    requires Segmented(k) && name == LastName(k) && Trims(t, name) && |t| < |name|
    ensures EndsInSpace(k)
  {
    TrimsSome(t, name);
    LastCharacter(k, name);
  }

  lemma Differs(r: Option<Path>, k: Path)
    requires r.Some? ==> |r.value| < |k|
    ensures r != Some(k)
  {
  }

  /** A key is read as itself if and only if it does not end in white space, and otherwise, if at
      all, as a shorter one. */
  lemma RereadExactly(k: Path, name: string, t: string)
    requires Segmented(k) && name == LastName(k) && Trims(t, name)
    ensures RereadWith(k, t) == Some(k) <==> !EndsInSpace(k)
    ensures EndsInSpace(k) && RereadWith(k, t).Some? ==> |RereadWith(k, t).value| < |k|
  {
    RereadPlain(k, name);
    if |t| == |name| {
      NotTrimmed(k, name, t);
    } else {
      ReallyTrimmed(k, name, t);
      if RereadWith(k, t).Some? {
        RereadShorter(k, name, t);
      }
      Differs(RereadWith(k, t), k);
    }
  }

  /** A stored path is read back as its own key if and only if it does not end in white space. */
  lemma NormalizesBackExactly(k: Path)
    requires Storable(k)
    ensures Normalize(WorkspacePath(k)) == Some(k) <==> !EndsInSpace(k)
    ensures EndsInSpace(k) && Normalize(WorkspacePath(k)).Some? ==> |Normalize(WorkspacePath(k)).value| < |k|
  {
    ReadsAsReread(k);
    if k != "" {
      TrimEndTrims(LastName(k));
      RereadExactly(k, LastName(k), TrimEnd(LastName(k)));
    }
  }

  /** A path with a backslash is not read at all. */
  lemma BackslashNotRead(k: Path)
    requires HasBackslash(k)
    ensures Normalize(WorkspacePath(k)).None?
  {
    var path := WorkspacePath(k);
    var i :| 0 <= i < |k| && k[i] == '\\';
    StaysTrimmed(path, |MOUNT| + 1 + i);
  }

  lemma StaysTrimmed(path: string, i: nat)
    requires i < |path| && path[0] == '/' && path[i] == '\\'
    ensures HasBackslash(Trim(path))
  {
    var raw := TrimEnd(path);
    TrimEndTrims(path);
    assert i < |raw| && raw[i] == path[i];
  }

  /** Of well-formed paths, the store reads back exactly those it can store and that do not end
      in white space. */
  lemma KernelPathReadsBack(k: Path)
    requires WellFormed(k)
    ensures Normalize(WorkspacePath(k)) == Some(k) <==> !HasBackslash(k) && !EndsInSpace(k)
  {
    if HasBackslash(k) {
      BackslashNotRead(k);
    } else {
      NormalizesBackExactly(k);
    }
  }
}
