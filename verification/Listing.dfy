/** Which children a directory has: the listing and `statPath` agree, and a listing of an
    unchanged directory is always the same. */
module Listing {
  import opened Bytes
  import opened Paths
  import opened Names
  import opened Namespace

  /** `rest.split("/")[0]`. */
  function FirstName(rest: string): (n: string)
    ensures |n| <= |rest| && n == rest[..|n|] && (forall i :: 0 <= i < |n| ==> n[i] != '/')
    ensures |n| < |rest| ==> rest[|n|] == '/'
  {
    if rest == "" || rest[0] == '/' then "" else [rest[0]] + FirstName(rest[1..])
  }

  function PrefixOf(path: Path): string {
    if path == "" then "" else path + "/"
  }

  function ChildPath(path: Path, n: string): Path {
    PrefixOf(path) + n
  }

  /** The name the loop over the keys takes from `k`, if `k` is below `path`; keys have no empty
      names. */
  function NameBelow(path: Path, k: Path): Option<string> {
    var prefix := PrefixOf(path);
    if k == "" || !StartsWith(k, prefix) || k[|prefix|..] == "" || FirstName(k[|prefix|..]) == "" then None
    else Some(FirstName(k[|prefix|..]))
  }

  /** There is more of `k` below that name. */
  predicate Deeper(path: Path, k: Path) {
    NameBelow(path, k).Some? && |k| > |PrefixOf(path)| + |NameBelow(path, k).value|
  }

  // ----- The listing -----

  /** Names mapped to whether they are directories. */
  ghost predicate ListsAsDirectory(w: Space, path: Path, n: string) {
    (exists d :: d in w.dirs && NameBelow(path, d) == Some(n)) || (exists f :: f in w.files && NameBelow(path, f) == Some(n) && Deeper(path, f))
  }

  ghost predicate ListsAsFile(w: Space, path: Path, n: string) {
    !ListsAsDirectory(w, path, n) && exists f :: f in w.files && NameBelow(path, f) == Some(n)
  }

  ghost predicate IsListing(entries: map<string, bool>, w: Space, path: Path) {
    forall n :: (n in entries && entries[n] <==> ListsAsDirectory(w, path, n)) && (n in entries && !entries[n] <==> ListsAsFile(w, path, n))
  }

  /** The loops of `directoryEntries`: the directories first, then the files, which never hide one. */
  method DirectoryEntries(w: Space, path: Path) returns (entries: map<string, bool>)
    ensures IsListing(entries, w, path)
  {
    entries := CollectDirs(w, path);
    var todo := w.files.Keys;
    ghost var dirs := entries;
    while todo != {}
      invariant todo <= w.files.Keys && FilesSoFar(entries, dirs, w, path, todo)
      decreases todo
    {
      var f :| f in todo;
      var name := NameBelow(path, f);
      FileStep(entries, dirs, w, path, todo, f);
      if name.Some? {
        if Deeper(path, f) {
          entries := entries[name.value := true];
        } else if name.value !in entries {
          entries := entries[name.value := false];
        }
      }
      todo := todo - {f};
    }
    AllListed(entries, dirs, w, path);
  }

  ghost function WithFile(entries: map<string, bool>, path: Path, f: Path): map<string, bool> {
    var name := NameBelow(path, f);
    if name.None? then entries
    else if Deeper(path, f) then entries[name.value := true]
    else if name.value in entries then entries
    else entries[name.value := false]
  }

  lemma FileStep(entries: map<string, bool>, dirs: map<string, bool>, w: Space, path: Path, todo: set<Path>, f: Path)
    requires FilesSoFar(entries, dirs, w, path, todo) && f in w.files
    ensures FilesSoFar(WithFile(entries, path, f), dirs, w, path, todo - {f})
  {
    if NameBelow(path, f).Some? {
      if Deeper(path, f) {
        DeeperStep(entries, dirs, w, path, todo, f, NameBelow(path, f).value);
      } else if NameBelow(path, f).value !in entries {
        FlatStep(entries, dirs, w, path, todo, f, NameBelow(path, f).value);
      }
    }
  }

  lemma DeeperStep(entries: map<string, bool>, dirs: map<string, bool>, w: Space, path: Path, todo: set<Path>, f: Path, n: string)
    requires FilesSoFar(entries, dirs, w, path, todo) && f in w.files && NameBelow(path, f) == Some(n) && Deeper(path, f)
    ensures FilesSoFar(entries[n := true], dirs, w, path, todo - {f})
  {
  }

  lemma FlatStep(entries: map<string, bool>, dirs: map<string, bool>, w: Space, path: Path, todo: set<Path>, f: Path, n: string)
    requires FilesSoFar(entries, dirs, w, path, todo) && f in w.files && NameBelow(path, f) == Some(n) && !Deeper(path, f)
    requires n !in entries
    ensures FilesSoFar(entries[n := false], dirs, w, path, todo - {f})
  {
  }

  lemma AllListed(entries: map<string, bool>, dirs: map<string, bool>, w: Space, path: Path)
    requires FilesSoFar(entries, dirs, w, path, {})
    ensures IsListing(entries, w, path)
  {
  }

  ghost predicate DirsListed(entries: map<string, bool>, w: Space, path: Path, todo: set<Path>) {
    && (forall n :: n in entries ==> entries[n] && exists d :: d in w.dirs && NameBelow(path, d) == Some(n))
    && (forall d :: d in w.dirs && d !in todo && NameBelow(path, d).Some? ==> NameBelow(path, d).value in entries)
  }

  ghost predicate FilesSoFar(entries: map<string, bool>, dirs: map<string, bool>, w: Space, path: Path, todo: set<Path>) {
    && DirsListed(dirs, w, path, {})
    && (forall n :: n in dirs ==> n in entries && entries[n])
    && (forall n :: n in entries && entries[n] ==> ListsAsDirectory(w, path, n))
    && (forall n :: n in entries && !entries[n] ==> exists f :: f in w.files && NameBelow(path, f) == Some(n))
    && (forall f :: f in w.files && f !in todo && NameBelow(path, f).Some? ==>
          NameBelow(path, f).value in entries && (Deeper(path, f) ==> entries[NameBelow(path, f).value]))
  }

  method CollectDirs(w: Space, path: Path) returns (entries: map<string, bool>)
    ensures DirsListed(entries, w, path, {})
  {
    entries := map[];
    var todo := w.dirs;
    while todo != {}
      invariant todo <= w.dirs && DirsListed(entries, w, path, todo)
      decreases todo
    {
      var d :| d in todo;
      var name := NameBelow(path, d);
      if name.Some? {
        entries := entries[name.value := true];
      }
      todo := todo - {d};
    }
  }

  // ----- Agreement with statPath -----

  datatype Stat = IsADirectory | IsAFile(size: nat) | Missing

  /** `statPath`: a directory first. */
  function StatPath(w: Space, k: Path): Stat
    requires RecordsKnown(w)
  {
    if k in w.dirs || HasChildren(w, k) then IsADirectory
    else if k in w.files then IsAFile(|w.records[w.files[k]].bytes|)
    else Missing
  }

  predicate SlashFree(n: string) {
    n != "" && forall i :: 0 <= i < |n| ==> n[i] != '/'
  }

  lemma FirstNameIs(rest: string, n: string)
    requires SlashFree(n) && |n| <= |rest| && rest[..|n|] == n && (|n| < |rest| ==> rest[|n|] == '/')
    ensures FirstName(rest) == n
  {
    var m := FirstName(rest);
    assert forall i :: 0 <= i < |n| ==> rest[i] == rest[..|n|][i];
    assert forall i :: 0 <= i < |m| ==> rest[i] == m[i];
    assert |m| == |n|;
  }

  /** A key gives the name `n` exactly when it is at or under that child. */
  lemma NameMeansUnder(path: Path, k: Path, n: string)
    requires SlashFree(n)
    ensures NameBelow(path, k) == Some(n) <==> AtOrUnder(ChildPath(path, n), k)
    ensures NameBelow(path, k) == Some(n) ==> (Deeper(path, k) <==> Under(ChildPath(path, n), k))
  {
    var prefix, child := PrefixOf(path), ChildPath(path, n);
    if NameBelow(path, k) == Some(n) {
      var rest := k[|prefix|..];
      assert k == prefix + rest;
      assert k[..|child|] == prefix + rest[..|n|];
    }
    if AtOrUnder(child, k) {
      var rest := k[|prefix|..];
      assert k[..|child|] == child;
      assert k[..|prefix|] == child[..|prefix|] == prefix;
      assert rest[..|n|] == k[..|child|][|prefix|..] == n;
      FirstNameIs(rest, n);
    }
  }

  /** The listing and a stat of each child agree on whether it exists and what it is. */
  lemma ListingAgrees(w: Space, path: Path, n: string)
    requires RecordsKnown(w) && SlashFree(n)
    ensures var stat := StatPath(w, ChildPath(path, n));
            && (ListsAsDirectory(w, path, n) <==> stat.IsADirectory?)
            && (ListsAsFile(w, path, n) <==> stat.IsAFile?)
            && (!ListsAsDirectory(w, path, n) && !ListsAsFile(w, path, n) <==> stat.Missing?)
  {
    forall k ensures NameBelow(path, k) == Some(n) <==> AtOrUnder(ChildPath(path, n), k) {
      NameMeansUnder(path, k, n);
    }
    forall k | NameBelow(path, k) == Some(n) ensures Deeper(path, k) <==> Under(ChildPath(path, n), k) {
      NameMeansUnder(path, k, n);
    }
  }

  // ----- Sorted listings are unique -----

  /** `left < right` on texts. */
  predicate Less(a: string, b: string) {
    b != "" && (a == "" || a[0] < b[0] || (a[0] == b[0] && Less(a[1..], b[1..])))
  }

  lemma {:induction false} LessOneWay(a: string, b: string)
    requires Less(a, b)
    ensures a != b && !Less(b, a)
    decreases a
  {
    if a != "" && a[0] == b[0] {
      LessOneWay(a[1..], b[1..]);
    }
  }

  lemma {:induction false} LessEither(a: string, b: string)
    requires a != b
    ensures Less(a, b) || Less(b, a)
    decreases a
  {
    if a != "" && b != "" && a[0] == b[0] {
      assert a == [a[0]] + a[1..] && b == [b[0]] + b[1..];
      LessEither(a[1..], b[1..]);
    }
  }

  lemma {:induction false} LessThrough(a: string, b: string, c: string)
    requires Less(a, b) && Less(b, c)
    ensures Less(a, c)
    decreases a
  {
    if a != "" && a[0] == b[0] && b[0] == c[0] {
      LessThrough(a[1..], b[1..], c[1..]);
    }
  }

  predicate Sorted(names: seq<string>) {
    forall i, j :: 0 <= i < j < |names| ==> Less(names[i], names[j])
  }

  /** Puts a new name where it belongs. */
  method Insert(names: seq<string>, n: string) returns (r: seq<string>)
    requires Sorted(names) && n !in names
    ensures Sorted(r) && (forall m :: m in r <==> m in names || m == n)
  {
    var i := 0;
    while i < |names| && Less(names[i], n)
      invariant 0 <= i <= |names|
      invariant forall j :: 0 <= j < i ==> Less(names[j], n)
    {
      i := i + 1;
    }
    if i < |names| {
      LessEither(names[i], n);
    }
    r := names[..i] + [n] + names[i..];
    InsertedSorted(names, n, i, r);
  }

  lemma InsertedSorted(names: seq<string>, n: string, i: nat, r: seq<string>)
    requires Sorted(names) && i <= |names| && r == names[..i] + [n] + names[i..]
    requires (forall j :: 0 <= j < i ==> Less(names[j], n)) && (i < |names| ==> Less(n, names[i]))
    ensures Sorted(r) && (forall m :: m in r <==> m in names || m == n)
  {
    forall j | i <= j < |names| ensures Less(n, names[j]) {
      if j > i {
        LessThrough(n, names[i], names[j]);
      }
    }
    forall a, b | 0 <= a < b < |r| ensures Less(r[a], r[b]) {
      InsertedAt(names, n, i, r, a);
      InsertedAt(names, n, i, r, b);
    }
    InsertedNames(names, n, i, r);
  }

  lemma InsertedAt(names: seq<string>, n: string, i: nat, r: seq<string>, j: nat)
    requires i <= |names| && r == names[..i] + [n] + names[i..] && j < |r|
    ensures r[j] == if j < i then names[j] else if j == i then n else names[j - 1]
  {
  }

  lemma InsertedNames(names: seq<string>, n: string, i: nat, r: seq<string>)
    requires i <= |names| && r == names[..i] + [n] + names[i..]
    ensures forall m :: m in r <==> m in names || m == n
  {
    assert names == names[..i] + names[i..];
  }

  /** The names of a listing, sorted: with `SortedUnique`, the one order there is. */
  method SortNames(entries: map<string, bool>) returns (names: seq<string>)
    ensures Sorted(names) && (forall n :: n in names <==> n in entries)
  {
    names := [];
    var todo := entries.Keys;
    while todo != {}
      invariant todo <= entries.Keys && Sorted(names)
      invariant forall n :: n in names <==> n in entries && n !in todo
      decreases todo
    {
      var n :| n in todo;
      names := Insert(names, n);
      todo := todo - {n};
    }
  }

  lemma FirstIsLeast(a: seq<string>, b: seq<string>)
    requires Sorted(a) && Sorted(b) && a != [] && b != [] && (forall n :: n in a <==> n in b)
    ensures a[0] == b[0]
  {
    assert a[0] in b && b[0] in a;
    var i :| 0 <= i < |b| && b[i] == a[0];
    var j :| 0 <= j < |a| && a[j] == b[0];
    if i > 0 && j > 0 {
      LessOneWay(b[0], b[i]);
    }
  }

  lemma TailNames(a: seq<string>, n: string)
    requires Sorted(a) && a != []
    ensures Sorted(a[1..]) && (n in a[1..] <==> n in a && n != a[0])
  {
    if n in a[1..] {
      var i :| 0 <= i < |a[1..]| && a[1..][i] == n;
      LessOneWay(a[0], a[i + 1]);
    }
  }

  /** Two sorted listings of the same children are the same, so cookies keep their meaning as long
      as the directory does not change. */
  lemma {:induction false} SortedUnique(a: seq<string>, b: seq<string>)
    requires Sorted(a) && Sorted(b) && (forall n :: n in a <==> n in b)
    ensures a == b
    decreases a
  {
    assert b != [] ==> b[0] in b;
    if a != [] {
      assert a[0] in b;
      FirstIsLeast(a, b);
      forall n ensures n in a[1..] <==> n in b[1..] {
        TailNames(a, n);
        TailNames(b, n);
      }
      TailNames(a, "");
      TailNames(b, "");
      SortedUnique(a[1..], b[1..]);
      assert a == [a[0]] + a[1..] && b == [b[0]] + b[1..];
    }
  }
}
