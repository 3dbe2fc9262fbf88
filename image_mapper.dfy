/** The image-mapper screen (`ImageMapper`): its state, the `processFiles` pipeline that moves it
    through idle, analyzing, processing and done, the lazy preview-URL effect, "Start Over",
    the match-column select and the download. */
module ImageMapperScreen {
  import opened Common
  import opened ImageIndex
  import opened Matching
  import opened Emitter
  import opened ExcelParser

  datatype Status = Idle | Analyzing | Processing | Done

  /** An object URL: `serial` tells URLs created by different `createObjectURL` calls apart. */
  datatype ObjectUrl = ObjectUrl(serial: nat, blob: Blob)

  /** How many leading rows the preview shows. */
  const PreviewRows: nat := 50

  /** The preview's lookup, `findMatch` over the dictionaries `idx`, as a function value. */
  function Finder(idx: MatchIndex): string -> Option<Blob>
  {
    k => FindMatch(idx, k)
  }

  /** The match value of a row, `String(row[matchColumn] || '').trim()`, as a function value. */
  function MatchText(matchColumn: string): Row -> string
  {
    row => CellText(row, matchColumn)
  }

  /** The match values of the rows the preview shows: the first 50. */
  function PreviewValues(data: seq<Row>, text: Row -> string): (vals: seq<string>)
    ensures |vals| == if |data| < PreviewRows then |data| else PreviewRows
    ensures forall j :: 0 <= j < |vals| ==> vals[j] == text(data[j])
  {
    var n := if |data| < PreviewRows then |data| else PreviewRows;
    seq(n, j requires 0 <= j < n => text(data[j]))
  }

  /** `k` is one of the first `upTo` of `vals`, not blank, and `lookup` finds an image for it. */
  predicate Wanted(vals: seq<string>, lookup: string -> Option<Blob>, k: string, upTo: int)
  {
    k != "" && lookup(k).Some? && exists j :: 0 <= j < upTo && j < |vals| && vals[j] == k
  }

  /** The values the preview wants a URL for. */
  predicate PreviewWanted(data: seq<Row>, matchColumn: string, lookup: string -> Option<Blob>, k: string)
  {
    Wanted(PreviewValues(data, MatchText(matchColumn)), lookup, k, PreviewRows)
  }

  /** One more value widens the wanted values by that value alone. */
  lemma WantedStep(vals: seq<string>, lookup: string -> Option<Blob>, k: string, i: nat)
    requires i < |vals|
    ensures Wanted(vals, lookup, k, i + 1) <==> Wanted(vals, lookup, k, i) || (k == vals[i] && k != "" && lookup(k).Some?)
  {
    if Wanted(vals, lookup, k, i + 1) && !Wanted(vals, lookup, k, i) {
      var j :| 0 <= j < i + 1 && j < |vals| && vals[j] == k;
      assert j == i;
    }
  }

  /** What the preview loop knows after the first `i` values: every URL it created is for a
      wanted value the cache lacks, shows the blob the lookup found and is numbered from
      `created` below `next`; every value wanted so far is cached or has a new URL. */
  ghost predicate CollectInv(vals: seq<string>, lookup: string -> Option<Blob>, cache: map<string, ObjectUrl>, created: nat,
                       newUrls: map<string, ObjectUrl>, next: nat, i: int)
  {
    && created <= next
    && (newUrls == map[] <==> next == created)
    && (forall k :: k in newUrls ==> k !in cache && Wanted(vals, lookup, k, i))
    && (forall k :: k in newUrls ==> lookup(k) == Some(newUrls[k].blob) && created <= newUrls[k].serial < next)
    && (forall k :: Wanted(vals, lookup, k, i) ==> k in cache || k in newUrls)
  }

  /** One turn of the preview loop keeps what it knows. */
  lemma CollectInvStep(vals: seq<string>, lookup: string -> Option<Blob>, cache: map<string, ObjectUrl>, created: nat,
                       newUrls: map<string, ObjectUrl>, next: nat, i: nat)
    requires i < |vals| && CollectInv(vals, lookup, cache, created, newUrls, next, i)
    ensures var take := vals[i] != "" && vals[i] !in cache && lookup(vals[i]).Some?;
      CollectInv(vals, lookup, cache, created,
                 if take then newUrls[vals[i] := ObjectUrl(next, lookup(vals[i]).value)] else newUrls,
                 if take then next + 1 else next, i + 1)
  {
    var take := vals[i] != "" && vals[i] !in cache && lookup(vals[i]).Some?;
    var urls := if take then newUrls[vals[i] := ObjectUrl(next, lookup(vals[i]).value)] else newUrls;
    var n := if take then next + 1 else next;
    forall k
      ensures Wanted(vals, lookup, k, i + 1) <==> Wanted(vals, lookup, k, i) || (k == vals[i] && k != "" && lookup(k).Some?)
    {
      WantedStep(vals, lookup, k, i);
    }
    forall k | k in urls
      ensures k !in cache && Wanted(vals, lookup, k, i + 1)
      ensures lookup(k) == Some(urls[k].blob) && created <= urls[k].serial < n
    {
    }
  }

  /** The loop of the preview effect: walks the first 50 rows and creates a URL, numbered from
      `created`, for each row whose value `text` is not blank, not cached and resolved by `lookup`. */
  method CollectPreviewUrls(rows: seq<Row>, text: Row -> string, lookup: string -> Option<Blob>,
                            cache: map<string, ObjectUrl>, created: nat)
    returns (newUrls: map<string, ObjectUrl>, next: nat)
    ensures CollectInv(PreviewValues(rows, text), lookup, cache, created, newUrls, next, PreviewRows)
  {
    ghost var vals := PreviewValues(rows, text);
    newUrls := map[];
    next := created;
    var n := if |rows| < PreviewRows then |rows| else PreviewRows;
    var i := 0;
    while i < n
      invariant 0 <= i <= n
      invariant CollectInv(vals, lookup, cache, created, newUrls, next, i)
    {
      CollectInvStep(vals, lookup, cache, created, newUrls, next, i);
      ghost var take := vals[i] != "" && vals[i] !in cache && lookup(vals[i]).Some?;
      ghost var urls' := if take then newUrls[vals[i] := ObjectUrl(next, lookup(vals[i]).value)] else newUrls;
      ghost var next' := if take then next + 1 else next;
      var val := text(rows[i]);
      assert val == vals[i];
      if val != "" && val !in cache {
        var blob := lookup(val);
        if blob.Some? {
          newUrls := newUrls[val := ObjectUrl(next, blob.value)];
          next := next + 1;
        }
      }
      assert newUrls == urls' && next == next';
      i := i + 1;
    }
    forall k | Wanted(vals, lookup, k, PreviewRows)
      ensures Wanted(vals, lookup, k, i)
    {
    }
  }

  /** The whole preview effect on values: collects the new URLs and merges them into `cache`,
      which keeps every entry it had. */
  method UpdatePreviewUrls(rows: seq<Row>, text: Row -> string, lookup: string -> Option<Blob>,
                           cache: map<string, ObjectUrl>, created: nat)
    returns (merged: map<string, ObjectUrl>, next: nat)
    requires forall k :: k in cache ==> cache[k].serial < created
    ensures created <= next
    ensures forall k :: k in merged ==> merged[k].serial < next
    ensures forall k :: k in cache ==> k in merged && merged[k] == cache[k]
    ensures forall k :: k in merged && k !in cache ==>
      && Wanted(PreviewValues(rows, text), lookup, k, PreviewRows)
      && lookup(k) == Some(merged[k].blob)
      && created <= merged[k].serial
    ensures forall k :: Wanted(PreviewValues(rows, text), lookup, k, PreviewRows) ==> k in merged
  {
    var newUrls;
    newUrls, next := CollectPreviewUrls(rows, text, lookup, cache, created);
    var hasUpdates := newUrls != map[];
    merged := if hasUpdates then cache + newUrls else cache;
    forall k | k in cache
      ensures k in merged && merged[k] == cache[k]
    {
      assert k !in newUrls;
    }
  }

  /** The serials of the URLs a cache holds. */
  function Serials(m: map<string, ObjectUrl>): set<nat>
  {
    set k | k in m :: m[k].serial
  }

  /** The clean-up effect as written: it depends on the cache, so each time the cache changes
      it revokes every URL of the cache it was set up with, and once more at unmount. */
  function RevokeOnChange(revoked: set<nat>, before: map<string, ObjectUrl>, after: map<string, ObjectUrl>): (r: set<nat>)
    ensures revoked <= r
    ensures after != before ==> Serials(before) <= r
  {
    if after == before then revoked else revoked + Serials(before)
  }

  /** As written, every merge that adds a URL revokes each URL the cache already held, while the
      cache keeps handing it out to the preview. */
  lemma MergeRevokesCachedUrls(revoked: set<nat>, cache: map<string, ObjectUrl>, newUrls: map<string, ObjectUrl>, k: string)
    requires newUrls != map[] && k in cache
    requires forall n :: n in newUrls ==> n !in cache
    ensures var merged := cache + newUrls;
      && k in merged && merged[k] == cache[k]
      && merged[k].serial in RevokeOnChange(revoked, cache, merged)
  {
    var n :| n in newUrls;
    assert n !in cache && n in cache + newUrls;
    assert cache[k].serial in Serials(cache);
  }

  /** What a finished match run leaves: the dictionaries of the archive, its image count, and the
      best column with its score, the first of the highest-scoring columns. */
  ghost predicate Matched(parsed: Parsed, entries: seq<Entry>, idx: MatchIndex, totalImages: nat,
                          matchColumn: string, matchedRows: nat)
  {
    && idx == IndexOf(entries) && totalImages == ImageCount(entries)
    && matchedRows <= |parsed.data|
    && (parsed.columns == [] ==> matchColumn == "" && matchedRows == 0)
    && (parsed.columns != [] ==> exists j :: FirstMax(Scores(parsed.data, parsed.columns, idx), j, matchedRows)
                                              && matchColumn == parsed.columns[j].key)
  }

  /** Steps 2 and 3 of `processFiles`: index the archive, then pick the match column. */
  method RunMatching(parsed: Parsed, entries: seq<Entry>)
    returns (idx: MatchIndex, totalImages: nat, matchColumn: string, matchedRows: nat)
    ensures Matched(parsed, entries, idx, totalImages, matchColumn, matchedRows)
  {
    idx, totalImages := ProcessImageBatch(entries);
    matchColumn, matchedRows := FindBestMatchColumn(parsed.data, parsed.columns, idx);
  }

  class ImageMapper {
    /** The chosen spreadsheet, as what `parseExcelFile` makes of it (rows and columns, or the error). */
    var excelFile: Option<Result<Parsed>>
    /** The chosen archive, as its entries in archive order, or the decoding error. */
    var zipFile: Option<Result<seq<Entry>>>
    var status: Status
    /** Every status the screen has been in, oldest first. */
    ghost var trail: seq<Status>
    var data: seq<Row>
    var columns: seq<Column>
    var idx: MatchIndex
    var previewUrls: map<string, ObjectUrl>
    /** How many object URLs have been created so far. */
    var urlsCreated: nat
    /** The serials of the URLs revoked so far. */
    var revoked: set<nat>
    var matchColumn: string
    var totalImages: nat
    var matchedRows: nat

    /** The status is the last one the screen entered. */
    ghost predicate Valid()
      reads this
    {
      trail != [] && status == trail[|trail| - 1]
    }

    /** Every cached URL was created before the current count: the next one is fresh. */
    ghost predicate UrlsNumbered()
      reads this
    {
      && (forall k :: k in previewUrls ==> previewUrls[k].serial < urlsCreated)
      && (forall s :: s in revoked ==> s < urlsCreated)
    }

    /** Every URL the preview shows is still live: none has been revoked. */
    ghost predicate UrlsLive()
      reads this
    {
      forall k :: k in previewUrls ==> previewUrls[k].serial !in revoked
    }

    constructor ()
      ensures Valid() && UrlsNumbered() && UrlsLive()
      ensures revoked == {}
      ensures excelFile == None && zipFile == None && status == Idle && trail == [Idle]
      ensures data == [] && columns == [] && idx == EmptyIndex && previewUrls == map[] && urlsCreated == 0
      ensures matchColumn == "" && totalImages == 0 && matchedRows == 0
    {
      excelFile := None;
      zipFile := None;
      status := Idle;
      trail := [Idle];
      data := [];
      columns := [];
      idx := EmptyIndex;
      previewUrls := map[];
      urlsCreated := 0;
      revoked := {};
      matchColumn := "";
      totalImages := 0;
      matchedRows := 0;
    }

    /** `handleExcelUpload`: a selected file replaces the current one; an empty selection does nothing. */
    method UploadExcel(file: Option<Result<Parsed>>)
      modifies this`excelFile
      ensures excelFile == if file.Some? then file else old(excelFile)
    {
      if file.Some? {
        excelFile := file;
      }
    }

    /** `handleZipUpload`. */
    method UploadZip(file: Option<Result<seq<Entry>>>)
      modifies this`zipFile
      ensures zipFile == if file.Some? then file else old(zipFile)
    {
      if file.Some? {
        zipFile := file;
      }
    }

    /** `processFiles`: nothing without both files; otherwise analyzing, then processing once
        the spreadsheet is read, then done once the archive is indexed and the best column
        chosen. A failure at either step returns to idle, keeping whatever was already set. */
    method ProcessFiles()
      requires Valid()
      modifies this`status, this`trail, this`columns, this`idx, this`matchColumn, this`data,
               this`totalImages, this`matchedRows
      ensures Valid()
      ensures old(excelFile).None? || old(zipFile).None? ==>
        status == old(status) && trail == old(trail) && columns == old(columns) && data == old(data)
        && idx == old(idx) && matchColumn == old(matchColumn)
        && totalImages == old(totalImages) && matchedRows == old(matchedRows)
      ensures excelFile.Some? && zipFile.Some? && excelFile.value.Err? ==>
        trail == old(trail) + [Analyzing] + [Idle] && columns == old(columns) && data == old(data)
        && idx == old(idx) && matchColumn == old(matchColumn)
        && totalImages == old(totalImages) && matchedRows == old(matchedRows)
      ensures excelFile.Some? && zipFile.Some? && excelFile.value.Ok? && zipFile.value.Err? ==>
        trail == old(trail) + [Analyzing] + [Processing] + [Idle] && columns == excelFile.value.value.columns
        && data == old(data) && idx == old(idx) && matchColumn == old(matchColumn)
        && totalImages == old(totalImages) && matchedRows == old(matchedRows)
      ensures excelFile.Some? && zipFile.Some? && excelFile.value.Ok? && zipFile.value.Ok? ==>
        var parsed := excelFile.value.value;
        var entries := zipFile.value.value;
        && trail == old(trail) + [Analyzing] + [Processing] + [Done]
        && columns == parsed.columns && data == parsed.data
        && Matched(parsed, entries, idx, totalImages, matchColumn, matchedRows)
    {
      if excelFile.None? || zipFile.None? {
        return;
      }
      status := Analyzing;
      trail := trail + [Analyzing];
      match excelFile.value {
        case Err(_) =>
          status := Idle;
          trail := trail + [Idle];
        case Ok(parsed) =>
          columns := parsed.columns;
          status := Processing;
          trail := trail + [Processing];
          match zipFile.value {
            case Err(_) =>
              status := Idle;
              trail := trail + [Idle];
            case Ok(entries) =>
              FinishMatching(parsed, entries);
          }
      }
    }

    /** The last stage of `processFiles`: stores the dictionaries, the chosen column, the rows
        and the counts, and enters done. */
    method FinishMatching(parsed: Parsed, entries: seq<Entry>)
      requires Valid()
      modifies this`status, this`trail, this`idx, this`matchColumn, this`data, this`totalImages, this`matchedRows
      ensures Valid()
      ensures trail == old(trail) + [Done] && data == parsed.data
      ensures Matched(parsed, entries, idx, totalImages, matchColumn, matchedRows)
    {
      var index, imageCount, bestCol, maxMatches := RunMatching(parsed, entries);
      idx := index;
      matchColumn := bestCol;
      data := parsed.data;
      totalImages := imageCount;
      matchedRows := maxMatches;
      status := Done;
      trail := trail + [Done];
    }

    /** The preview effect: once matching is done and a column is chosen, creates an object URL
        for every value among the first 50 rows that is not blank, not already cached and
        resolves to an image, and merges them into the cache. Cached entries are never removed
        or replaced, and no URL is revoked while the screen is mounted, so every URL shown stays
        live. */
    method PreviewEffect()
      requires UrlsNumbered() && UrlsLive()
      modifies this`previewUrls, this`urlsCreated
      ensures UrlsNumbered() && UrlsLive()
      ensures status != Done || matchColumn == "" ==> previewUrls == old(previewUrls) && urlsCreated == old(urlsCreated)
      ensures forall k :: k in old(previewUrls) ==> k in previewUrls && previewUrls[k] == old(previewUrls)[k]
      ensures forall k :: k in previewUrls && k !in old(previewUrls) ==>
        && PreviewWanted(data, matchColumn, Finder(idx), k)
        && Finder(idx)(k) == Some(previewUrls[k].blob)
        && old(urlsCreated) <= previewUrls[k].serial
      ensures status == Done && matchColumn != "" ==>
        forall k :: PreviewWanted(data, matchColumn, Finder(idx), k) ==> k in previewUrls
    {
      if status != Done || matchColumn == "" {
        return;
      }
      var merged, next := UpdatePreviewUrls(data, MatchText(matchColumn), Finder(idx), previewUrls, urlsCreated);
      urlsCreated := next;
      previewUrls := merged;
    }

    /** The clean-up at unmount: revokes every URL the cache holds. */
    method Unmount()
      modifies this`revoked
      ensures revoked == old(revoked) + Serials(previewUrls)
      ensures forall k :: k in previewUrls ==> previewUrls[k].serial in revoked
    {
      revoked := revoked + Serials(previewUrls);
    }

    /** The image cell of preview row `i`: the cached URL for the row's trimmed match value. */
    function PreviewCell(i: nat): (r: Option<ObjectUrl>)
      reads this
      requires i < |data|
      ensures r.Some? <==> CellText(data[i], matchColumn) in previewUrls
    {
      var v := CellText(data[i], matchColumn);
      if v in previewUrls then Some(previewUrls[v]) else None
    }

    /** "Start Over": back to idle; the data, columns, dictionaries and cached URLs stay. */
    method StartOver()
      requires Valid()
      modifies this`status, this`trail
      ensures Valid()
      ensures status == Idle && trail == old(trail) + [Idle]
    {
      status := Idle;
      trail := trail + [Idle];
    }

    /** The "Matched via Column" select. */
    method SelectMatchColumn(key: string)
      modifies this`matchColumn
      ensures matchColumn == key
    {
      matchColumn := key;
    }

    /** `handleDownload`: the sheet built from the current rows, columns, column and dictionaries. */
    method Download() returns (sheet: Sheet)
      ensures sheet == Layout(data, columns, matchColumn, idx)
    {
      sheet := GenerateImageMappedExcel(data, columns, matchColumn, idx);
    }
  }
}
