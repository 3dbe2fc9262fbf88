/** The archive indexer (`processImageBatch`): filters the archive's entries down to images and
    files each one under three keys in three dictionaries. Entries are decoded one after the
    other in archive order, so a later image overwrites an earlier one with the same key. */
module ImageIndex {
  import opened Common
  import opened Keys

  /** Decoded image bytes and their MIME type. */
  datatype Blob = Blob(bytes: seq<bv8>, mimeType: string)

  /** One archive entry: its path inside the archive, whether it is a folder, its content. */
  datatype Entry = Entry(path: string, isDir: bool, blob: Blob)

  /** The three lookup dictionaries of the matcher. */
  datatype MatchIndex = MatchIndex(exact: map<string, Blob>, norm: map<string, Blob>, fuzzy: map<string, Blob>)

  const EmptyIndex: MatchIndex := MatchIndex(map[], map[], map[])

  /** `path.split('/').pop()`: the part after the last `/`. */
  function Basename(path: string): string
  {
    if path == [] || path[|path| - 1] == '/' then []
    else Basename(path[..|path| - 1]) + [path[|path| - 1]]
  }

  /** The basename is the longest suffix of the path without a `/`. */
  lemma {:induction false} BasenameSpec(path: string)
    ensures var r := Basename(path);
      && |r| <= |path| && r == path[|path| - |r|..]
      && (forall i :: 0 <= i < |r| ==> r[i] != '/')
      && (|r| < |path| ==> path[|path| - |r| - 1] == '/')
  {
    if path != [] && path[|path| - 1] != '/' {
      BasenameSpec(path[..|path| - 1]);
    }
  }

  /** `/\.(jpg|jpeg|png|gif|webp)$/i`. */
  predicate HasImageExtension(name: string)
  {
    var l := Lower(name);
    EndsWith(l, ".jpg") || EndsWith(l, ".jpeg") || EndsWith(l, ".png") || EndsWith(l, ".gif") || EndsWith(l, ".webp")
  }

  /** The entry filter: not a folder, not under `__MACOSX`, not hidden, a non-empty image name. */
  predicate Qualifies(e: Entry)
  {
    var name := Basename(e.path);
    !e.isDir && !Contains(e.path, "__MACOSX") && !StartsWith(name, ".") && name != "" && HasImageExtension(name)
  }

  /** The three keys of one image. */
  datatype Tier = ExactTier | NormTier | FuzzyTier

  function TierKey(t: Tier, name: string): string
  {
    match t
    case ExactTier => name
    case NormTier => Normalize(name)
    case FuzzyTier => Loose(Normalize(name))
  }

  function TierMap(t: Tier, idx: MatchIndex): map<string, Blob>
  {
    match t
    case ExactTier => idx.exact
    case NormTier => idx.norm
    case FuzzyTier => idx.fuzzy
  }

  /** Entry `e` writes `key` in tier `t`: it is an image, `key` is its key there, and for the fuzzy
      tier that key is not empty. */
  predicate Writes(t: Tier, e: Entry, key: string)
  {
    Qualifies(e) && TierKey(t, Basename(e.path)) == key && (t == FuzzyTier ==> key != "")
  }

  /** Filing one image under its three keys. */
  function Insert(idx: MatchIndex, name: string, blob: Blob): MatchIndex
  {
    var n := Normalize(name);
    var f := Loose(n);
    MatchIndex(idx.exact[name := blob], idx.norm[n := blob], if f != "" then idx.fuzzy[f := blob] else idx.fuzzy)
  }

  /** The index built from `entries`, processed in order. */
  function IndexOf(entries: seq<Entry>): MatchIndex
  {
    if entries == [] then EmptyIndex
    else
      var e := entries[|entries| - 1];
      var prev := IndexOf(entries[..|entries| - 1]);
      if Qualifies(e) then Insert(prev, Basename(e.path), e.blob) else prev
  }

  /** Number of entries that pass the filter. */
  function ImageCount(entries: seq<Entry>): (n: nat)
    ensures n <= |entries|
  {
    if entries == [] then 0
    else ImageCount(entries[..|entries| - 1]) + (if Qualifies(entries[|entries| - 1]) then 1 else 0)
  }

  /** One more entry extends the index and the count by that entry alone. */
  lemma IndexOfStep(entries: seq<Entry>, i: nat)
    requires i < |entries|
    ensures IndexOf(entries[..i + 1]) ==
      if Qualifies(entries[i]) then Insert(IndexOf(entries[..i]), Basename(entries[i].path), entries[i].blob)
      else IndexOf(entries[..i])
    ensures ImageCount(entries[..i + 1]) == ImageCount(entries[..i]) + if Qualifies(entries[i]) then 1 else 0
  {
    assert entries[..i + 1][..i] == entries[..i];
  }

  /** `processImageBatch`: fills the three dictionaries entry by entry and counts the images. */
  method ProcessImageBatch(entries: seq<Entry>) returns (idx: MatchIndex, imageCount: nat)
    ensures idx == IndexOf(entries)
    ensures imageCount == ImageCount(entries)
  {
    var eMap: map<string, Blob> := map[];
    var nMap: map<string, Blob> := map[];
    var fMap: map<string, Blob> := map[];
    imageCount := 0;
    var i := 0;
    while i < |entries|
      invariant 0 <= i <= |entries|
      invariant MatchIndex(eMap, nMap, fMap) == IndexOf(entries[..i])
      invariant imageCount == ImageCount(entries[..i])
    {
      var e := entries[i];
      IndexOfStep(entries, i);
      i := i + 1;
      if e.isDir { continue; }
      if Contains(e.path, "__MACOSX") { continue; }
      var filename := Basename(e.path);
      if StartsWith(filename, ".") { continue; }
      if filename == "" { continue; }
      if HasImageExtension(filename) {
        eMap := eMap[filename := e.blob];
        var normName := Normalize(filename);
        nMap := nMap[normName := e.blob];
        var fuzzyName := Loose(normName);
        if fuzzyName != "" { fMap := fMap[fuzzyName := e.blob]; }
        imageCount := imageCount + 1;
      }
    }
    assert entries[..i] == entries;
    idx := MatchIndex(eMap, nMap, fMap);
  }

  /** The last entry of `entries` that writes `key` in tier `t` is at index `j`. */
  predicate LastWriter(entries: seq<Entry>, t: Tier, key: string, j: int)
  {
    0 <= j < |entries| && Writes(t, entries[j], key)
    && forall k :: j < k < |entries| ==> !Writes(t, entries[k], key)
  }

  /** Filing one image adds its key in each tier and leaves every other key as it was. */
  lemma InsertTier(idx: MatchIndex, name: string, blob: Blob, t: Tier, key: string)
    ensures var m := TierMap(t, Insert(idx, name, blob));
      var w := TierKey(t, name) == key && (t == FuzzyTier ==> key != "");
      && (key in m <==> w || key in TierMap(t, idx))
      && (w ==> m[key] == blob)
      && (!w && key in m ==> m[key] == TierMap(t, idx)[key])
  {
  }

  /** Reading one more entry: a tier key the entry writes now holds its blob; any other key is
      held, with its blob, exactly as before. */
  lemma IndexTierStep(entries: seq<Entry>, t: Tier, key: string)
    requires entries != []
    ensures var e := entries[|entries| - 1];
      var m := TierMap(t, IndexOf(entries));
      var pm := TierMap(t, IndexOf(entries[..|entries| - 1]));
      && (Writes(t, e, key) ==> key in m && m[key] == e.blob)
      && (!Writes(t, e, key) ==> (key in m <==> key in pm) && (key in m ==> m[key] == pm[key]))
  {
    var e := entries[|entries| - 1];
    if Qualifies(e) {
      InsertTier(IndexOf(entries[..|entries| - 1]), Basename(e.path), e.blob, t, key);
    }
  }

  /** Every tier holds a key exactly when some image writes it, and then holds the blob of the
      last such image (last write wins). */
  lemma {:induction false} IndexTier(entries: seq<Entry>, t: Tier, key: string)
    ensures key in TierMap(t, IndexOf(entries)) <==> exists j :: 0 <= j < |entries| && Writes(t, entries[j], key)
    ensures key in TierMap(t, IndexOf(entries)) ==>
      exists j :: LastWriter(entries, t, key, j) && TierMap(t, IndexOf(entries))[key] == entries[j].blob
  {
    if entries != [] {
      var n := |entries|;
      var prefix := entries[..n - 1];
      var e := entries[n - 1];
      IndexTier(prefix, t, key);
      IndexTierStep(entries, t, key);
      var m := TierMap(t, IndexOf(entries));
      var pm := TierMap(t, IndexOf(prefix));
      if Writes(t, e, key) {
        assert LastWriter(entries, t, key, n - 1);
      } else if key in m {
        var j :| LastWriter(prefix, t, key, j) && pm[key] == prefix[j].blob;
        assert prefix[j] == entries[j];
        forall k | j < k < n
          ensures !Writes(t, entries[k], key)
        {
          if k < n - 1 {
            assert prefix[k] == entries[k];
          }
        }
        assert LastWriter(entries, t, key, j);
      } else {
        forall j | 0 <= j < n
          ensures !Writes(t, entries[j], key)
        {
          if j < n - 1 {
            assert prefix[j] == entries[j];
          }
        }
      }
    }
  }

  /** The empty string is never a fuzzy key. */
  lemma EmptyNeverFuzzyKey(entries: seq<Entry>)
    ensures "" !in IndexOf(entries).fuzzy
  {
    IndexTier(entries, FuzzyTier, "");
  }

  /** The image count bounds the size of every tier: an entry adds at most one key to each. */
  lemma {:induction false} ImageCountBoundsTiers(entries: seq<Entry>)
    ensures |IndexOf(entries).exact| <= ImageCount(entries)
    ensures |IndexOf(entries).norm| <= ImageCount(entries)
    ensures |IndexOf(entries).fuzzy| <= ImageCount(entries)
  {
    if entries != [] {
      var prefix := entries[..|entries| - 1];
      ImageCountBoundsTiers(prefix);
      var e := entries[|entries| - 1];
      if Qualifies(e) {
        var p := IndexOf(prefix);
        var name := Basename(e.path);
        MapInsertSize(p.exact, name, e.blob);
        MapInsertSize(p.norm, Normalize(name), e.blob);
        MapInsertSize(p.fuzzy, Loose(Normalize(name)), e.blob);
      }
    }
  }

  lemma MapInsertSize(m: map<string, Blob>, k: string, v: Blob)
    ensures |m[k := v]| <= |m| + 1
  {
    if k in m {
      assert m[k := v].Keys == m.Keys;
    } else {
      assert m[k := v].Keys == m.Keys + {k};
    }
  }
}
