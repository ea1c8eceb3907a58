/**
 * Case discovery (test/index.ts:15-23): the children of the `files` directory,
 * in listing order, are kept when they are directories holding both the input
 * document and the options manifest. A plain file is skipped, but the first
 * directory that lacks either artifact ends discovery.
 */
module Discovery {

  /**
   * One child of the `files` directory, as the listing, `lstat` and
   * `existsSync` see it: its name, whether it is a directory, and the files it
   * holds with their contents.
   */
  datatype Entry = Entry(name: string, isDirectory: bool, files: map<string, string>)

  const InputFile: string := "nginx.conf"
  const ManifestFile: string := "options.json"

  /** Both artifacts a case directory must hold. */
  predicate HasArtifacts(entry: Entry)
  {
    InputFile in entry.files && ManifestFile in entry.files
  }

  /** A directory that ends discovery. */
  predicate StopsDiscovery(entry: Entry)
  {
    entry.isDirectory && !HasArtifacts(entry)
  }

  /** The directories discovery yields, in listing order. */
  function Discovered(listing: seq<Entry>): (cases: seq<Entry>)
    ensures forall k :: 0 <= k < |cases| ==> cases[k].isDirectory && HasArtifacts(cases[k])
    ensures |cases| <= |listing|
  {
    if listing == [] then []
    else if !listing[0].isDirectory then Discovered(listing[1..])
    else if !HasArtifacts(listing[0]) then []
    else [listing[0]] + Discovered(listing[1..])
  }

  /** The discovery loop, with its two `break`s. */
  method DiscoverCases(listing: seq<Entry>) returns (testDirectories: seq<Entry>)
    ensures testDirectories == Discovered(listing)
  {
    testDirectories := [];
    for k := 0 to |listing|
      invariant testDirectories + Discovered(listing[k..]) == Discovered(listing)
    {
      var entry := listing[k];
      assert listing[k..][1..] == listing[k + 1..];
      if entry.isDirectory {
        if InputFile !in entry.files {
          break;
        }
        if ManifestFile !in entry.files {
          break;
        }
        testDirectories := testDirectories + [entry];
      }
    }
  }

  /** Where discovery halts: the first directory lacking an artifact, or the end. */
  function StopIndex(listing: seq<Entry>): (stop: nat)
    ensures stop <= |listing|
    ensures stop < |listing| ==> StopsDiscovery(listing[stop])
    ensures forall k :: 0 <= k < stop ==> !StopsDiscovery(listing[k])
  {
    if listing == [] then 0
    else if StopsDiscovery(listing[0]) then 0
    else 1 + StopIndex(listing[1..])
  }

  /** The directories among `entries`, in order. */
  function Directories(entries: seq<Entry>): (dirs: seq<Entry>)
  {
    if entries == [] then []
    else (if entries[0].isDirectory then [entries[0]] else []) + Directories(entries[1..])
  }

  /** Discovery keeps exactly the directories listed before the stopping one. */
  lemma {:induction false} DiscoveredIsDirectoriesBeforeStop(listing: seq<Entry>)
    ensures Discovered(listing) == Directories(listing[..StopIndex(listing)])
  {
    if listing != [] && !StopsDiscovery(listing[0]) {
      DiscoveredIsDirectoriesBeforeStop(listing[1..]);
      var stop := StopIndex(listing);
      assert listing[..stop][1..] == listing[1..][..stop - 1];
    }
  }

  /** `xs` occurs in `ys` in order, possibly with gaps. */
  predicate IsSubsequence<T(==)>(xs: seq<T>, ys: seq<T>)
  {
    xs == [] ||
    (ys != [] &&
      ((xs[0] == ys[0] && IsSubsequence(xs[1..], ys[1..])) || IsSubsequence(xs, ys[1..])))
  }

  /** Discovery preserves the listing order and invents nothing. */
  lemma {:induction false} DiscoveredIsSubsequence(listing: seq<Entry>)
    ensures IsSubsequence(Discovered(listing), listing)
  {
    if listing != [] {
      DiscoveredIsSubsequence(listing[1..]);
      if listing[0].isDirectory && HasArtifacts(listing[0]) {
        assert Discovered(listing)[1..] == Discovered(listing[1..]);
      }
    }
  }

  /** Every discovered entry comes from the part of the listing before the stop. */
  lemma {:induction false} DiscoveredBeforeStop(listing: seq<Entry>)
    ensures forall e :: e in Discovered(listing) ==> e in listing[..StopIndex(listing)]
  {
    if listing != [] && !StopsDiscovery(listing[0]) {
      DiscoveredBeforeStop(listing[1..]);
      var stop := StopIndex(listing);
      assert listing[..stop] == [listing[0]] + listing[1..][..stop - 1];
    }
  }

  /**
   * In a listing whose names are distinct (as a directory's are), no entry at
   * or after the stopping directory is discovered, however valid it is.
   */
  lemma NothingAfterStop(listing: seq<Entry>, k: nat)
    requires forall a, b :: 0 <= a < b < |listing| ==> listing[a].name != listing[b].name
    requires StopIndex(listing) <= k < |listing|
    ensures listing[k] !in Discovered(listing)
  {
    DiscoveredBeforeStop(listing);
  }

  /** A plain file between two valid cases is skipped: both cases are found. */
  lemma PlainFileIsSkipped(a: Entry, file: Entry, b: Entry)
    requires a.isDirectory && HasArtifacts(a) && b.isDirectory && HasArtifacts(b)
    requires !file.isDirectory
    ensures Discovered([a, file, b]) == [a, b]
  {
    assert [b][1..] == [];
    assert Discovered([b]) == [b];
    assert [file, b][1..] == [b];
    assert Discovered([file, b]) == [b];
    assert [a, file, b][1..] == [file, b];
  }

  /** A directory without its artifacts between two valid cases hides the second one. */
  lemma IncompleteDirectoryStops(a: Entry, broken: Entry, b: Entry)
    requires a.isDirectory && HasArtifacts(a)
    requires StopsDiscovery(broken)
    ensures Discovered([a, broken, b]) == [a]
  {
    assert [a, broken, b][1..] == [broken, b];
  }
}
