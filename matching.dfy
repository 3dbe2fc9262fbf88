/** Resolution of a cell value against the three dictionaries (exact, then normalized, then
    loose) and the column scorer `findBestMatchColumn`. */
module Matching {
  import opened Common
  import opened Keys
  import opened ImageIndex

  /** The scorer's test for a trimmed, non-blank cell text `v`: some tier holds its key. */
  predicate Hits(idx: MatchIndex, v: string)
  {
    v in idx.exact || Normalize(v) in idx.norm || (Loose(v) != "" && Loose(v) in idx.fuzzy)
  }

  /** The tiered lookup shared by emission and the preview: the first tier that holds the
      value's key decides. */
  function Resolve(idx: MatchIndex, v: string): (r: Option<Blob>)
    ensures r.Some? <==> Hits(idx, v)
    ensures v in idx.exact ==> r == Some(idx.exact[v])
    ensures v !in idx.exact && Normalize(v) in idx.norm ==> r == Some(idx.norm[Normalize(v)])
    ensures v !in idx.exact && Normalize(v) !in idx.norm && r.Some? ==> r == Some(idx.fuzzy[Loose(v)])
  {
    if v in idx.exact then Some(idx.exact[v])
    else if Normalize(v) in idx.norm then Some(idx.norm[Normalize(v)])
    else if Loose(v) != "" && Loose(v) in idx.fuzzy then Some(idx.fuzzy[Loose(v)])
    else None
  }

  /** `findMatch` of the live preview: nothing for an empty value, otherwise the tiered lookup
      of the trimmed value. */
  function FindMatch(idx: MatchIndex, val: string): (r: Option<Blob>)
    ensures val == "" ==> r == None
    ensures val != "" ==> (r.Some? <==> Hits(idx, Trim(val)))
    ensures val != "" && Trim(val) in idx.exact ==> r == Some(idx.exact[Trim(val)])
  {
    if val == "" then None else Resolve(idx, Trim(val))
  }

  /** What an image `name` and a value `v` share when the lookup of `v` can reach that image:
      the same exact name, the same normalized key, or the same non-empty loose key. */
  predicate KeysMeet(name: string, v: string)
  {
    name == v || Normalize(name) == Normalize(v) || (Loose(v) != "" && Loose(Normalize(name)) == Loose(v))
  }

  /** Whatever the lookup returns is the content of an image of the archive whose key meets
      the value's key in one tier. */
  lemma ResolveSound(entries: seq<Entry>, v: string)
    requires Resolve(IndexOf(entries), v).Some?
    ensures exists j :: (0 <= j < |entries| && Qualifies(entries[j])
      && KeysMeet(Basename(entries[j].path), v) && entries[j].blob == Resolve(IndexOf(entries), v).value)
  {
    var idx := IndexOf(entries);
    var t := if v in idx.exact then ExactTier else if Normalize(v) in idx.norm then NormTier else FuzzyTier;
    var key := if t == ExactTier then v else if t == NormTier then Normalize(v) else Loose(v);
    IndexTier(entries, t, key);
    var j :| LastWriter(entries, t, key, j) && TierMap(t, idx)[key] == entries[j].blob;
    assert KeysMeet(Basename(entries[j].path), v);
  }

  /** Tier priority over the archive: when some image carries the value's exact name, the
      lookup returns the last such image, whatever the other tiers hold. */
  lemma ResolvePrefersExact(entries: seq<Entry>, v: string, j: int)
    requires 0 <= j < |entries| && Qualifies(entries[j]) && Basename(entries[j].path) == v
    ensures Resolve(IndexOf(entries), v).Some?
    ensures exists k :: LastWriter(entries, ExactTier, v, k) && Resolve(IndexOf(entries), v) == Some(entries[k].blob)
  {
    assert Writes(ExactTier, entries[j], v);
    IndexTier(entries, ExactTier, v);
  }

  /** Row `row` counts for column `key`: its trimmed text is not blank and hits a tier. */
  predicate RowMatches(row: Row, key: string, idx: MatchIndex)
  {
    var v := CellText(row, key);
    v != "" && Hits(idx, v)
  }

  /** Number of rows of `data` that count for column `key`. */
  function MatchCount(data: seq<Row>, key: string, idx: MatchIndex): (n: nat)
    ensures n <= |data|
  {
    if data == [] then 0
    else MatchCount(data[..|data| - 1], key, idx) + if RowMatches(data[|data| - 1], key, idx) then 1 else 0
  }

  /** The score of every column, in declaration order. */
  function Scores(data: seq<Row>, columns: seq<Column>, idx: MatchIndex): (r: seq<nat>)
    ensures |r| == |columns|
    ensures forall k :: 0 <= k < |columns| ==> r[k] == MatchCount(data, columns[k].key, idx)
  {
    seq(|columns|, k requires 0 <= k < |columns| => MatchCount(data, columns[k].key, idx))
  }

  /** Position `j` holds the maximum `m` of `scores`, and every earlier position is strictly
      below it: the first maximum. */
  predicate FirstMax(scores: seq<nat>, j: int, m: nat)
  {
    0 <= j < |scores| && scores[j] == m
    && (forall k :: 0 <= k < |scores| ==> scores[k] <= m)
    && (forall k :: 0 <= k < j ==> scores[k] < m)
  }

  lemma MatchCountStep(data: seq<Row>, key: string, idx: MatchIndex, r: nat)
    requires r < |data|
    ensures MatchCount(data[..r + 1], key, idx) == MatchCount(data[..r], key, idx) + if RowMatches(data[r], key, idx) then 1 else 0
  {
    assert data[..r + 1][..r] == data[..r];
  }

  /** The inner loop of `findBestMatchColumn`: counts the rows of `data` whose value in column
      `key` is not blank and hits a tier. */
  method CountMatches(data: seq<Row>, key: string, idx: MatchIndex) returns (matches: nat)
    ensures matches == MatchCount(data, key, idx)
  {
    matches := 0;
    for r := 0 to |data|
      invariant matches == MatchCount(data[..r], key, idx)
    {
      MatchCountStep(data, key, idx, r);
      var val := CellText(data[r], key);
      if val == "" { continue; }
      var n := Normalize(val);
      var f := Loose(val);
      if val in idx.exact || n in idx.norm || (f != "" && f in idx.fuzzy) {
        matches := matches + 1;
      }
    }
    assert data[..|data|] == data;
  }

  /** `findBestMatchColumn`: counts the matching rows of every column and keeps the first
      column with the highest count (a later column must score strictly more to replace it);
      with no columns the answer is `('', 0)`. */
  method FindBestMatchColumn(data: seq<Row>, columns: seq<Column>, idx: MatchIndex)
    returns (bestCol: string, maxMatches: nat)
    ensures columns == [] ==> bestCol == "" && maxMatches == 0
    ensures columns != [] ==> exists j :: FirstMax(Scores(data, columns, idx), j, maxMatches) && bestCol == columns[j].key
    ensures maxMatches <= |data|
  {
    ghost var scores := Scores(data, columns, idx);
    bestCol := if |columns| > 0 then columns[0].key else "";
    maxMatches := 0;
    ghost var bestAt := 0;
    for c := 0 to |columns|
      invariant maxMatches <= |data|
      invariant forall k :: 0 <= k < c ==> scores[k] <= maxMatches
      invariant c > 0 ==> 0 <= bestAt < c && scores[bestAt] == maxMatches
      invariant c > 0 ==> forall k :: 0 <= k < bestAt ==> scores[k] < maxMatches
      invariant c == 0 ==> maxMatches == 0 && bestAt == 0
      invariant |columns| > 0 ==> bestCol == columns[bestAt].key
      invariant columns == [] ==> bestCol == ""
    {
      var matches := CountMatches(data, columns[c].key, idx);
      assert matches == scores[c];
      if matches > maxMatches {
        maxMatches := matches;
        bestCol := columns[c].key;
        bestAt := c;
      }
    }
    if columns != [] {
      assert FirstMax(scores, bestAt, maxMatches);
    }
  }

  /** The scorer's answer is determined by its inputs: only one position and count satisfy it. */
  lemma FirstMaxUnique(scores: seq<nat>, j1: int, m1: nat, j2: int, m2: nat)
    requires FirstMax(scores, j1, m1) && FirstMax(scores, j2, m2)
    ensures j1 == j2 && m1 == m2
  {
    assert scores[j2] <= m1;
    assert scores[j1] <= m2;
  }

  /** With an empty archive no row of any column counts. */
  lemma {:induction false} EmptyArchiveNoMatches(data: seq<Row>, key: string)
    ensures MatchCount(data, key, EmptyIndex) == 0
  {
    if data != [] {
      EmptyArchiveNoMatches(data[..|data| - 1], key);
    }
  }

  /** With an empty archive the scorer keeps the first column with count 0. */
  lemma EmptyArchiveBest(data: seq<Row>, columns: seq<Column>, j: int, m: nat)
    requires FirstMax(Scores(data, columns, EmptyIndex), j, m)
    ensures j == 0 && m == 0
  {
    EmptyArchiveNoMatches(data, columns[j].key);
    if j > 0 {
      EmptyArchiveNoMatches(data, columns[0].key);
    }
  }

  // ------------------------------------------------------------ worked examples

  lemma BasenameNoSlash(path: string)
    requires forall i :: 0 <= i < |path| ==> path[i] != '/'
    ensures Basename(path) == path
  {
    BasenameSpec(path);
  }

  /** An image entry at the top of the archive, named `name`, with no folder in its path and
      no two underscores in a row. */
  lemma TopLevelImageQualifies(name: string, b: Blob)
    requires forall i :: 0 <= i < |name| ==> name[i] != '/'
    requires forall i :: 0 <= i < |name| - 1 ==> name[i] != '_' || name[i + 1] != '_'
    requires name != [] && name[0] != '.'
    requires EndsWith(Lower(name), ".png")
    ensures Qualifies(Entry(name, false, b))
  {
    BasenameNoSlash(name);
    forall i | 0 <= i <= |name| - 8
      ensures !OccursAt(name, "__MACOSX", i)
    {
      if OccursAt(name, "__MACOSX", i) {
        OccursAtChar(name, "__MACOSX", i, 0);
        OccursAtChar(name, "__MACOSX", i, 1);
        assert false;
      }
    }
  }

  const A100Blob: Blob := Blob([0x89, 0x50, 0x4E, 0x47], "image/png")

  lemma LowerA100png() ensures Lower("A100.png") == "a100.png" { }
  lemma LowerA100() ensures Lower("A100") == "a100" { }
  lemma LowerZZZ() ensures Lower("ZZZ") == "zzz" { }
  lemma LowerDashA100png() ensures Lower("A-100.png") == "a-100.png" { }

  lemma NormalizeDashA100png()
    ensures Normalize("A-100.png") == "a-100"
  {
    LowerDashA100png();
    NormalizeIgnoresCase("A-100.png");
    NormalizePlain("a-100.png", 5);
    assert "a-100.png"[..5] == "a-100";
  }

  lemma LooseDotPng()
    ensures Loose(".png") == "png"
  {
    LooseOfAlnum("png");
    LooseAppend(".", "png");
  }

  lemma LooseDash100()
    ensures Loose("-100") == "100"
  {
    LooseOfAlnum("100");
    LooseAppend("-", "100");
    assert "-" + "100" == "-100";
  }

  lemma LooseDashA100()
    ensures Loose("A-100") == "a100"
  {
    LooseOfAlnum("A");
    LooseDash100();
    LooseAppend("A", "-100");
    assert "A" + "-100" == "A-100";
  }

  lemma LooseDashA100png()
    ensures Loose("A-100.png") == "a100png"
  {
    LooseDotPng();
    LooseDashA100();
    LooseAppend("A-100", ".png");
    assert "A-100" + ".png" == "A-100.png";
  }

  lemma NormalizeA100png()
    ensures Normalize("A100.png") == "a100"
  {
    LowerA100png();
    NormalizeIgnoresCase("A100.png");
    NormalizePlain("a100.png", 4);
    assert "a100.png"[..4] == "a100";
  }

  /** A value without a dot has no extension to lose. */
  lemma NoDotNormalize(s: string)
    requires forall k :: 0 <= k < |s| ==> s[k] != '.'
    ensures Normalize(s) == Trim(Lower(s))
  {
    var l := Lower(s);
    var t := Trim(l);
    TrimSpec(l);
    var k := |l| - |TrimStart(l)|;
    forall i | 0 <= i < |t|
      ensures t[i] != '.'
    {
      assert t[i] == l[k + i];
    }
    NormalizeSpec(s);
  }

  lemma NormalizeA100()
    ensures Normalize("A100") == "a100"
  {
    LowerA100();
    NoDotNormalize("A100");
    TrimUnchanged("a100");
  }

  lemma NormalizeZZZ()
    ensures Normalize("ZZZ") == "zzz"
  {
    LowerZZZ();
    NoDotNormalize("ZZZ");
    TrimUnchanged("zzz");
  }

  function A100Tiers(): MatchIndex
  {
    MatchIndex(map["A100.png" := A100Blob], map["a100" := A100Blob], map["a100" := A100Blob])
  }

  lemma IndexOfOne(e: Entry)
    requires Qualifies(e)
    ensures IndexOf([e]) == Insert(EmptyIndex, Basename(e.path), e.blob)
  {
    assert [e][..0] == [];
  }

  lemma LooseA100() ensures Loose("a100") == "a100" { LooseKeepsLooseStrings("a100"); }

  /** Indexing an archive holding only `A100.png` fills each tier with one key. */
  lemma A100Index()
    ensures IndexOf([Entry("A100.png", false, A100Blob)]) == A100Tiers()
  {
    LowerA100png();
    TopLevelImageQualifies("A100.png", A100Blob);
    IndexOfOne(Entry("A100.png", false, A100Blob));
    BasenameNoSlash("A100.png");
    NormalizeA100png();
    LooseA100();
  }

  function SkuRow(s: string): Row { map["sku" := Str(s)] }

  lemma CellTextPlain(s: string)
    requires s != [] && !IsSpace(s[0]) && !IsSpace(s[|s| - 1])
    ensures CellText(SkuRow(s), "sku") == s
  {
    assert Get(SkuRow(s), "sku") == Str(s);
    assert Truthy(Str(s));
    assert Stringify(Str(s)) == s;
    TrimUnchanged(s);
  }

  /** `A100` reaches the image through its normalized key `a100`: its exact key lacks the
      extension. */
  lemma A100Row1()
    ensures RowMatches(SkuRow("A100"), "sku", A100Tiers())
  {
    CellTextPlain("A100");
    NormalizeA100();
  }

  /** `a-100` reaches the image through its loose key `a100`. */
  lemma A100Row2()
    ensures RowMatches(SkuRow("a-100"), "sku", A100Tiers())
  {
    CellTextPlain("a-100");
    assert Loose("a-100") == "a100";
  }

  lemma A100Row3()
    ensures !RowMatches(SkuRow("ZZZ"), "sku", A100Tiers())
  {
    CellTextPlain("ZZZ");
    NormalizeZZZ();
    assert Loose("ZZZ") == "zzz";
  }

  /** The sample table `A100`, `a-100`, `ZZZ` against an archive holding `A100.png` scores 2 for
      `sku`; `ZZZ` is the row left unmatched. */
  lemma A100Scenario()
    ensures MatchCount([SkuRow("A100"), SkuRow("a-100"), SkuRow("ZZZ")], "sku", IndexOf([Entry("A100.png", false, A100Blob)])) == 2
  {
    A100Index();
    A100Row1();
    A100Row2();
    A100Row3();
    var data := [SkuRow("A100"), SkuRow("a-100"), SkuRow("ZZZ")];
    assert data[..2] == [SkuRow("A100"), SkuRow("a-100")];
    assert data[..2][..1] == [SkuRow("A100")];
    assert data[..2][..1][..0] == [];
  }

  /** The loose key of a value keeps its extension, the loose key of an image does not: the
      value `A-100.png` reaches `A100.png` through no tier. */
  lemma LooseTierIsAsymmetric()
    ensures !Hits(IndexOf([Entry("A100.png", false, A100Blob)]), "A-100.png")
  {
    A100Index();
    NormalizeDashA100png();
    LooseDashA100png();
  }

  const AbBlob: Blob := Blob([0xFF, 0xD8], "image/png")

  function AbTiers(): MatchIndex
  {
    MatchIndex(map["Ab_1.PNG" := AbBlob], map["ab_1" := AbBlob], map["ab1" := AbBlob])
  }

  lemma LowerAbPng() ensures Lower("Ab_1.PNG") == "ab_1.png" { }
  lemma LowerAbSpaced() ensures Lower("AB 1") == "ab 1" { }
  lemma LooseAbStem() ensures Loose("ab_1") == "ab1" { }
  lemma LooseAbSpaced() ensures Loose("AB 1") == "ab1" { }

  lemma NormalizeAbPng()
    ensures Normalize("Ab_1.PNG") == "ab_1"
  {
    LowerAbPng();
    NormalizeIgnoresCase("Ab_1.PNG");
    NormalizePlain("ab_1.png", 4);
    assert "ab_1.png"[..4] == "ab_1";
  }

  lemma NormalizeAbStem()
    ensures Normalize("ab_1") == "ab_1"
  {
    assert Lower("ab_1") == "ab_1";
    NoDotNormalize("ab_1");
    TrimUnchanged("ab_1");
  }

  lemma NormalizeAbSpaced()
    ensures Normalize("AB 1") == "ab 1"
  {
    LowerAbSpaced();
    NoDotNormalize("AB 1");
    TrimUnchanged("ab 1");
  }

  lemma AbIndex()
    ensures IndexOf([Entry("Ab_1.PNG", false, AbBlob)]) == AbTiers()
  {
    LowerAbPng();
    TopLevelImageQualifies("Ab_1.PNG", AbBlob);
    IndexOfOne(Entry("Ab_1.PNG", false, AbBlob));
    BasenameNoSlash("Ab_1.PNG");
    NormalizeAbPng();
    LooseAbStem();
  }

  /** Keys are derived the same way on both sides: an image indexed from `Ab_1.PNG` is reached
      by the value `Ab_1.PNG` through the exact tier, ... */
  lemma SymmetryExact()
    ensures var idx := IndexOf([Entry("Ab_1.PNG", false, AbBlob)]);
      "Ab_1.PNG" in idx.exact && Resolve(idx, "Ab_1.PNG") == Some(AbBlob)
  {
    AbIndex();
  }

  /** ... by `ab_1` through the normalized tier, ... */
  lemma SymmetryNormalized()
    ensures var idx := IndexOf([Entry("Ab_1.PNG", false, AbBlob)]);
      "ab_1" !in idx.exact && Normalize("ab_1") in idx.norm && Resolve(idx, "ab_1") == Some(AbBlob)
  {
    AbIndex();
    NormalizeAbStem();
  }

  /** ... and by `AB 1` through the loose tier. */
  lemma SymmetryLoose()
    ensures var idx := IndexOf([Entry("Ab_1.PNG", false, AbBlob)]);
      && "AB 1" !in idx.exact && Normalize("AB 1") !in idx.norm
      && Resolve(idx, "AB 1") == Some(AbBlob)
  {
    AbIndex();
    NormalizeAbSpaced();
    LooseAbSpaced();
  }

  // ------------------------------------------------------------ prototype keys

  /** The property names every object literal inherits from `Object.prototype`; reading one of
      them from a dictionary built as `{}` yields a truthy value although nothing was stored. */
  predicate IsInheritedKey(k: string)
  {
    k in {"constructor", "hasOwnProperty", "isPrototypeOf", "propertyIsEnumerable", "toLocaleString",
          "toString", "valueOf", "__proto__", "__defineGetter__", "__defineSetter__",
          "__lookupGetter__", "__lookupSetter__"}
  }

  /** The scorer's test as written: a dictionary read is truthy for a stored key and for an
      inherited one. */
  predicate HitsAsWritten(idx: MatchIndex, v: string)
  {
    Hits(idx, v) || IsInheritedKey(v) || IsInheritedKey(Normalize(v)) || (Loose(v) != "" && IsInheritedKey(Loose(v)))
  }

  function MatchCountAsWritten(data: seq<Row>, key: string, idx: MatchIndex): (n: nat)
    ensures n >= MatchCount(data, key, idx)
  {
    if data == [] then 0
    else
      var v := CellText(data[|data| - 1], key);
      MatchCountAsWritten(data[..|data| - 1], key, idx) + if v != "" && HitsAsWritten(idx, v) then 1 else 0
  }

  /** As written, a row holding `constructor` counts as matched against an empty archive; the
      corrected count, which looks at stored keys only, is 0. */
  lemma InheritedKeyCounts()
    ensures MatchCountAsWritten([SkuRow("constructor")], "sku", EmptyIndex) == 1
    ensures MatchCount([SkuRow("constructor")], "sku", EmptyIndex) == 0
  {
    CellTextPlain("constructor");
    assert [SkuRow("constructor")][..0] == [];
    EmptyArchiveNoMatches([SkuRow("constructor")], "sku");
  }
}
