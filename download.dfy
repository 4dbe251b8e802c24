/**
 * A download job: the partition of a tile set into the tiles still to fetch and
 * the tiles already on disk, then one fetch per missing tile, with a tally of
 * the outcomes and the saving of every tile that obtained an image.
 */
module Downloads {
  import opened Wrappers
  import opened Tiles
  import opened TileSets
  import opened FileSystem

  /** What the provider's answer to one tile request came to. */
  datatype Outcome =
    | Fetched(body: Payload)  // the request succeeded and returned this body
    | HttpError(code: int)    // the provider answered with an HTTP error status
    | UrlError                // the request failed in transport, or raised anything else

  /** Which counter, besides `attempted`, an outcome raises. */
  datatype Kind = Found | NotFound | Blocked | Ignored

  /**
   * The keys of the job's `counts` dictionary: "download", "exists",
   * "attempted", "found", "not_found" and "blocked".
   */
  datatype Counter = Download | Exists | Attempted | FoundCount | NotFoundCount | BlockedCount

  /** The four counters a fetch updates are present. */
  predicate HasFetchCounters(c: map<Counter, int>) {
    Attempted in c && FoundCount in c && NotFoundCount in c && BlockedCount in c
  }

  /** A 403 is a block and a 404 a miss (403 is checked first); any other error is only logged. */
  function Classify(o: Outcome): (k: Kind)
    ensures k == Found <==> o.Fetched?
    ensures k == Blocked <==> o == HttpError(403)
    ensures k == NotFound <==> o == HttpError(404)
  {
    match o
    case Fetched(_) => Found
    case HttpError(code) => if code == 403 then Blocked else if code == 404 then NotFound else Ignored
    case UrlError => Ignored
  }

  /**
   * The tile's image once its fetch is over: the body on success, the blank
   * placeholder on a 404 (when `blank.png` could be read), otherwise what it was.
   */
  function AfterFetch(o: Outcome, before: Option<Payload>, blank: Option<Payload>): (after: Option<Payload>)
    ensures Classify(o) == Found ==> after == Some(o.body)
    ensures Classify(o) == NotFound ==> after == if blank.Some? then blank else before
    ensures Classify(o) == Blocked || Classify(o) == Ignored ==> after == before
  {
    match o
    case Fetched(body) => Some(body)
    case HttpError(code) => if code == 404 && blank.Some? then blank else before
    case UrlError => before
  }

  /** Python truthiness of `tile.image`: present and not empty. */
  predicate HasImage(img: Option<Payload>): (b: bool)
    ensures b <==> img != None && img != Some([])
  {
    img.Some? && |img.value| > 0
  }

  /** A saved tile's payload is dropped from memory; any other tile keeps what it has. */
  function Cleared(img: Option<Payload>): (r: Option<Payload>)
    ensures !HasImage(r)
    ensures r == img || r == None
    ensures !HasImage(img) ==> r == img
  {
    if HasImage(img) then None else img
  }

  /** The counters after one fetch. */
  function Tally(c: map<Counter, int>, o: Outcome): (d: map<Counter, int>)
    requires HasFetchCounters(c)
    ensures d.Keys == c.Keys
    ensures d[Attempted] == c[Attempted] + 1
    ensures d[FoundCount] + d[NotFoundCount] + d[BlockedCount] <= c[FoundCount] + c[NotFoundCount] + c[BlockedCount] + 1
    ensures d[FoundCount] >= c[FoundCount] && d[NotFoundCount] >= c[NotFoundCount] && d[BlockedCount] >= c[BlockedCount]
    ensures forall k | k in c && k != Attempted && k != FoundCount && k != NotFoundCount && k != BlockedCount :: d[k] == c[k]
  {
    var c := c[Attempted := c[Attempted] + 1];
    match Classify(o)
    case Found => c[FoundCount := c[FoundCount] + 1]
    case NotFound => c[NotFoundCount := c[NotFoundCount] + 1]
    case Blocked => c[BlockedCount := c[BlockedCount] + 1]
    case Ignored => c
  }

  /** The counters after tallying each outcome of `os`, in order. */
  function TallyAll(c: map<Counter, int>, os: seq<Outcome>): (d: map<Counter, int>)
    requires HasFetchCounters(c)
    ensures d.Keys == c.Keys
  {
    if os == [] then c else Tally(TallyAll(c, os[..|os| - 1]), os[|os| - 1])
  }

  /**
   * Tallying a run of outcomes adds one attempt per outcome and, to each of
   * found, not_found and blocked, the number of outcomes of that kind; no
   * other counter moves.
   */
  lemma {:induction false} TallyAllCounts(c: map<Counter, int>, os: seq<Outcome>)
    requires HasFetchCounters(c)
    ensures var d := TallyAll(c, os);
      && d[Attempted] == c[Attempted] + |os|
      && d[FoundCount] == c[FoundCount] + Count(os, Found)
      && d[NotFoundCount] == c[NotFoundCount] + Count(os, NotFound)
      && d[BlockedCount] == c[BlockedCount] + Count(os, Blocked)
      && forall k | k in c && k != Attempted && k != FoundCount && k != NotFoundCount && k != BlockedCount :: d[k] == c[k]
  {
    if os != [] {
      TallyAllCounts(c, os[..|os| - 1]);
    }
  }

  /** The four fetch counters set back to zero, the others kept. */
  function Reset(c: map<Counter, int>): (d: map<Counter, int>)
    ensures HasFetchCounters(d)
  {
    c[BlockedCount := 0][NotFoundCount := 0][FoundCount := 0][Attempted := 0]
  }

  /**
   * After a reset and a run of fetches, `attempted` is the number of fetches,
   * found, not_found and blocked count the outcomes of their kind and add up
   * to at most `attempted`, and no other counter has moved.
   */
  lemma ResetTally(c: map<Counter, int>, os: seq<Outcome>)
    ensures var d := TallyAll(Reset(c), os);
      && d[Attempted] == |os|
      && d[FoundCount] == Count(os, Found)
      && d[NotFoundCount] == Count(os, NotFound)
      && d[BlockedCount] == Count(os, Blocked)
      && d[FoundCount] + d[NotFoundCount] + d[BlockedCount] <= d[Attempted]
      && d.Keys == c.Keys + {Attempted, FoundCount, NotFoundCount, BlockedCount}
      && forall k | k in c && k != Attempted && k != FoundCount && k != NotFoundCount && k != BlockedCount :: d[k] == c[k]
  {
    TallyAllCounts(Reset(c), os);
    CountsPartition(os);
  }

  /** How many outcomes are of kind k. */
  function Count(os: seq<Outcome>, k: Kind): nat {
    if os == [] then 0
    else Count(os[..|os| - 1], k) + if Classify(os[|os| - 1]) == k then 1 else 0
  }

  /** Every outcome is of exactly one kind, so the kinds' counts add up to the number of outcomes. */
  lemma {:induction false} CountsPartition(os: seq<Outcome>)
    ensures Count(os, Found) + Count(os, NotFound) + Count(os, Blocked) + Count(os, Ignored) == |os|
  {
    if os != [] {
      CountsPartition(os[..|os| - 1]);
    }
  }

  /** The image of every tile once all fetches are over. */
  function Afters(os: seq<Outcome>, befores: seq<Option<Payload>>, blank: Option<Payload>): (after: seq<Option<Payload>>)
    requires |os| == |befores|
    ensures |after| == |os|
    ensures forall i :: 0 <= i < |os| ==> after[i] == AfterFetch(os[i], befores[i], blank)
  {
    seq(|os|, i requires 0 <= i < |os| => AfterFetch(os[i], befores[i], blank))
  }

  /** The images the tiles hold. */
  function Images(ts: seq<Tile>): (imgs: seq<Option<Payload>>)
    reads ts
    ensures |imgs| == |ts|
    ensures forall i :: 0 <= i < |ts| ==> imgs[i] == ts[i].image
  {
    seq(|ts|, i requires 0 <= i < |ts| reads ts => ts[i].image)
  }

  /** The tiles that hold an image, in order: the ones that get saved. */
  function Saved(ts: seq<Tile>, imgs: seq<Option<Payload>>): (s: seq<Tile>)
    requires |imgs| == |ts|
    ensures forall t | t in s :: t in ts
  {
    if ts == [] then []
    else
      var n := |ts| - 1;
      Saved(ts[..n], imgs[..n]) + if HasImage(imgs[n]) then [ts[n]] else []
  }

  /** Every tile that holds an image is saved. */
  lemma {:induction false} SavedHolders(ts: seq<Tile>, imgs: seq<Option<Payload>>, i: nat)
    requires |imgs| == |ts| && i < |ts| && HasImage(imgs[i])
    ensures ts[i] in Saved(ts, imgs)
  {
    var n := |ts| - 1;
    if i < n {
      assert ts[..n][i] == ts[i] && imgs[..n][i] == imgs[i];
      SavedHolders(ts[..n], imgs[..n], i);
    }
  }

  /** Only a tile that holds an image is saved: the converse of `SavedHolders`. */
  lemma {:induction false} SavedOnlyHolders(ts: seq<Tile>, imgs: seq<Option<Payload>>, t: Tile)
    requires |imgs| == |ts| && t in Saved(ts, imgs)
    ensures exists i :: 0 <= i < |ts| && ts[i] == t && HasImage(imgs[i])
  {
    var n := |ts| - 1;
    if t in Saved(ts[..n], imgs[..n]) {
      SavedOnlyHolders(ts[..n], imgs[..n], t);
      var i :| 0 <= i < n && ts[..n][i] == t && HasImage(imgs[..n][i]);
      assert ts[i] == t && HasImage(imgs[i]);
    } else {
      assert ts[n] == t && HasImage(imgs[n]);
    }
  }

  /**
   * Starting from tiles without images, only a success or a 404 can give a
   * tile an image, so no more tiles are saved than were found or not found.
   */
  lemma {:induction false} SavedOnlyFoundOrNotFound(ts: seq<Tile>, os: seq<Outcome>, befores: seq<Option<Payload>>, blank: Option<Payload>)
    requires |os| == |ts| == |befores|
    requires forall i :: 0 <= i < |befores| ==> befores[i] == None
    ensures |Saved(ts, Afters(os, befores, blank))| <= Count(os, Found) + Count(os, NotFound)
  {
    if ts != [] {
      var n := |ts| - 1;
      var after := Afters(os, befores, blank);
      assert after[..n] == Afters(os[..n], befores[..n], blank);
      SavedOnlyFoundOrNotFound(ts[..n], os[..n], befores[..n], blank);
    }
  }

  /** The files of some tiles under the job directory. */
  function FilesOf(ts: seq<Tile>, outPath: string, jobName: string): set<string> {
    if ts == [] then {}
    else FilesOf(ts[..|ts| - 1], outPath, jobName) + {ts[|ts| - 1].FullPath(outPath, jobName)}
  }

  /**
   * One more tile processed: the tiles saved so far grow by it, and the files
   * on disk by its file, exactly when it holds an image.
   */
  lemma SavedStep(ts: seq<Tile>, imgs: seq<Option<Payload>>, i: nat, outPath: string, jobName: string,
                  saved0: seq<Tile>, files0: set<string>, saved: seq<Tile>, files: set<string>,
                  saved': seq<Tile>, files': set<string>)
    requires |imgs| == |ts| && i < |ts|
    requires saved == saved0 + Saved(ts[..i], imgs[..i])
    requires files == files0 + FilesOf(Saved(ts[..i], imgs[..i]), outPath, jobName)
    requires saved' == saved + if HasImage(imgs[i]) then [ts[i]] else []
    requires files' == files + if HasImage(imgs[i]) then {ts[i].FullPath(outPath, jobName)} else {}
    ensures saved' == saved0 + Saved(ts[..i + 1], imgs[..i + 1])
    ensures files' == files0 + FilesOf(Saved(ts[..i + 1], imgs[..i + 1]), outPath, jobName)
  {
    SavedPrefix(ts, imgs, i);
    var done := Saved(ts[..i], imgs[..i]);
    if HasImage(imgs[i]) {
      assert saved + [ts[i]] == saved0 + (done + [ts[i]]);
    } else {
      assert done + [] == done;
    }
    SavedFilesStep(ts, imgs, i, outPath, jobName, files0, files, files');
  }

  /** The files half of SavedStep. */
  lemma SavedFilesStep(ts: seq<Tile>, imgs: seq<Option<Payload>>, i: nat, outPath: string, jobName: string,
                       files0: set<string>, files: set<string>, files': set<string>)
    requires |imgs| == |ts| && i < |ts|
    requires files == files0 + FilesOf(Saved(ts[..i], imgs[..i]), outPath, jobName)
    requires files' == files + if HasImage(imgs[i]) then {ts[i].FullPath(outPath, jobName)} else {}
    ensures files' == files0 + FilesOf(Saved(ts[..i + 1], imgs[..i + 1]), outPath, jobName)
  {
    SavedPrefix(ts, imgs, i);
    var done := Saved(ts[..i], imgs[..i]);
    if HasImage(imgs[i]) {
      FilesOfAppend(done, ts[i], outPath, jobName);
    } else {
      assert done + [] == done;
    }
  }

  /** The tiles saved from a prefix one longer: those of the prefix, then the new tile if it holds an image. */
  lemma SavedPrefix(ts: seq<Tile>, imgs: seq<Option<Payload>>, i: nat)
    requires |imgs| == |ts| && i < |ts|
    ensures Saved(ts[..i + 1], imgs[..i + 1]) == Saved(ts[..i], imgs[..i]) + if HasImage(imgs[i]) then [ts[i]] else []
  {
    assert ts[..i + 1][..i] == ts[..i] && imgs[..i + 1][..i] == imgs[..i];
  }

  /** Saving one more tile adds its file. */
  lemma FilesOfAppend(ts: seq<Tile>, t: Tile, outPath: string, jobName: string)
    ensures FilesOf(ts + [t], outPath, jobName) == FilesOf(ts, outPath, jobName) + {t.FullPath(outPath, jobName)}
  {
    assert (ts + [t])[..|ts|] == ts;
  }

  /** When every tile holds an image, every tile is saved, in order. */
  lemma {:induction false} SavedAll(ts: seq<Tile>, imgs: seq<Option<Payload>>)
    requires |imgs| == |ts| && forall i :: 0 <= i < |imgs| ==> HasImage(imgs[i])
    ensures Saved(ts, imgs) == ts
  {
    if ts != [] {
      var n := |ts| - 1;
      SavedAll(ts[..n], imgs[..n]);
      assert ts == ts[..n] + [ts[n]];
    }
  }

  /** The files of some tiles include the file of each of them. */
  lemma {:induction false} FilesOfMembers(ts: seq<Tile>, outPath: string, jobName: string)
    ensures forall t | t in ts :: t.FullPath(outPath, jobName) in FilesOf(ts, outPath, jobName)
  {
    if ts != [] {
      var n := |ts| - 1;
      FilesOfMembers(ts[..n], outPath, jobName);
      assert forall t | t in ts :: t in ts[..n] || t == ts[n];
    }
  }

  /**
   * When every fetch of a run brings a non-empty body, every tile fetched ends
   * up with its file on disk, so partitioning those tiles afresh finds nothing
   * left to download.
   */
  lemma AllFoundLeavesNothing(ts: seq<Tile>, os: seq<Outcome>, befores: seq<Option<Payload>>,
                              blank: Option<Payload>, outPath: string, jobName: string, files: set<string>)
    requires |os| == |ts| == |befores|
    requires forall i :: 0 <= i < |os| ==> os[i].Fetched? && |os[i].body| > 0
    requires FilesOf(Saved(ts, Afters(os, befores, blank)), outPath, jobName) <= files
    ensures Filter(ts, OnDisk(outPath, jobName, files), false) == []
  {
    var after := Afters(os, befores, blank);
    SavedAll(ts, after);
    FilesOfMembers(ts, outPath, jobName);
    NothingToDownload(ts, outPath, jobName, files);
  }

  /** The tiles of zoom z, none when the map has no entry for z. */
  function ZoomTiles(tiles: map<nat, seq<Tile>>, z: nat): seq<Tile> {
    if z in tiles then tiles[z] else []
  }

  /**
   * The tiles of zooms lo..hi, zoom by zoom, each zoom in its stored order
   * (a populated tile set has an entry for every zoom of the range).
   */
  function AllTiles(tiles: map<nat, seq<Tile>>, lo: nat, hi: int): seq<Tile>
    decreases hi - lo
  {
    if hi < lo then [] else AllTiles(tiles, lo, hi - 1) + ZoomTiles(tiles, hi)
  }

  /** Every tile listed under zooms lo..hi carries one of those zooms. */
  lemma {:induction false} AllTilesZooms(tiles: map<nat, seq<Tile>>, lo: nat, hi: int, t: Tile)
    requires forall z | z in tiles :: forall u | u in tiles[z] :: u.z == z
    requires t in AllTiles(tiles, lo, hi)
    ensures lo <= t.z <= hi
    decreases hi - lo
  {
    if hi >= lo && t !in ZoomTiles(tiles, hi) {
      AllTilesZooms(tiles, lo, hi - 1, t);
    }
  }

  /** No tile object appears twice across zooms lo..hi when none does within a zoom. */
  lemma {:induction false} AllTilesDistinct(tiles: map<nat, seq<Tile>>, lo: nat, hi: int)
    requires forall z | z in tiles :: NoDup(tiles[z]) && forall u | u in tiles[z] :: u.z == z
    ensures NoDup(AllTiles(tiles, lo, hi))
    decreases hi - lo
  {
    if hi >= lo {
      var front, back := AllTiles(tiles, lo, hi - 1), ZoomTiles(tiles, hi);
      AllTilesDistinct(tiles, lo, hi - 1);
      forall a, b | 0 <= a < |front| && 0 <= b < |back|
        ensures front[a] != back[b]
      {
        AllTilesZooms(tiles, lo, hi - 1, front[a]);
      }
    }
  }

  /** Whether the file of tile t exists under the job directory `outPath/jobName`. */
  function OnDisk(outPath: string, jobName: string, files: set<string>): Tile -> bool {
    (t: Tile) => t.FullPath(outPath, jobName) in files
  }

  /** The file test holds for a tile exactly when the tile's full path is among the files. */
  lemma OnDiskExactly(outPath: string, jobName: string, files: set<string>, t: Tile)
    ensures OnDisk(outPath, jobName, files)(t) <==> t.FullPath(outPath, jobName) in files
  {
  }

  /** The elements of s, in order, for which `test` gives `want`. */
  function Filter<T>(s: seq<T>, test: T -> bool, want: bool): seq<T> {
    if s == [] then []
    else
      var n := |s| - 1;
      Filter(s[..n], test, want) + if test(s[n]) == want then [s[n]] else []
  }

  /** Filtering the tiles of one more zoom level appends that level's selection. */
  lemma FilterNextZoom(all: map<nat, seq<Tile>>, lo: nat, zoom: nat, test: Tile -> bool, want: bool,
                       mid: seq<Tile>, next: seq<Tile>)
    requires lo <= zoom && zoom in all
    requires mid == Filter(AllTiles(all, lo, zoom - 1), test, want)
    requires next == mid + Filter(all[zoom], test, want)
    ensures next == Filter(AllTiles(all, lo, zoom), test, want)
  {
    var before := AllTiles(all, lo, zoom - 1);
    assert AllTiles(all, lo, zoom) == before + all[zoom];
    FilterAppend(before, all[zoom], test, want);
  }

  /** Filtering a prefix one element longer. */
  lemma FilterPrefix<T>(s: seq<T>, j: nat, test: T -> bool)
    requires j < |s|
    ensures Filter(s[..j + 1], test, false) == Filter(s[..j], test, false) + if test(s[j]) then [] else [s[j]]
    ensures Filter(s[..j + 1], test, true) == Filter(s[..j], test, true) + if test(s[j]) then [s[j]] else []
  {
    assert s[..j + 1][..j] == s[..j];
  }

  /** Filtering distributes over concatenation. */
  lemma {:induction false} FilterAppend<T>(a: seq<T>, b: seq<T>, test: T -> bool, want: bool)
    ensures Filter(a + b, test, want) == Filter(a, test, want) + Filter(b, test, want)
  {
    if b == [] {
      assert a + b == a;
    } else {
      var n := |b| - 1;
      FilterAppend(a, b[..n], test, want);
      assert (a + b)[..|a + b| - 1] == a + b[..n];
    }
  }

  /** Every element goes to exactly one side: the two sides together are s, counted with multiplicity. */
  lemma FilterPartition<T>(s: seq<T>, test: T -> bool)
    ensures multiset(Filter(s, test, false)) + multiset(Filter(s, test, true)) == multiset(s)
    ensures |Filter(s, test, false)| + |Filter(s, test, true)| == |s|
  {
    FilterSides(s, test);
    assert |multiset(s)| == |s|;
  }

  lemma {:induction false} FilterSides<T>(s: seq<T>, test: T -> bool)
    ensures multiset(Filter(s, test, false)) + multiset(Filter(s, test, true)) == multiset(s)
  {
    if s != [] {
      FilterSides(s[..|s| - 1], test);
      FilterSidesStep(s, test);
    }
  }

  /** The two sides keep making up the whole when one more element is filtered. */
  lemma FilterSidesStep<T>(s: seq<T>, test: T -> bool)
    requires s != []
    requires multiset(Filter(s[..|s| - 1], test, false)) + multiset(Filter(s[..|s| - 1], test, true)) == multiset(s[..|s| - 1])
    ensures multiset(Filter(s, test, false)) + multiset(Filter(s, test, true)) == multiset(s)
  {
    var n := |s| - 1;
    MultisetLast(s);
    MultisetAppend(Filter(s[..n], test, false), Filter(s[..n], test, true), s[..n], s[n]);
  }

  /** The multiset of a non-empty sequence is that of its front plus its last element. */
  lemma MultisetLast<T>(s: seq<T>)
    requires s != []
    ensures multiset(s) == multiset(s[..|s| - 1]) + multiset{s[|s| - 1]}
  {
    assert s == s[..|s| - 1] + [s[|s| - 1]];
  }

  /** Adding one element to either of two sides that together make up `whole` adds it to the whole. */
  lemma MultisetAppend<T>(f: seq<T>, t: seq<T>, whole: seq<T>, last: T)
    requires multiset(f) + multiset(t) == multiset(whole)
    ensures multiset(f + [last]) + multiset(t) == multiset(whole) + multiset{last}
    ensures multiset(f) + multiset(t + [last]) == multiset(whole) + multiset{last}
  {
  }

  /** An element is on a side exactly when it is in s and the test gives that side. */
  lemma {:induction false} FilterMembers<T>(s: seq<T>, test: T -> bool, want: bool, v: T)
    ensures v in Filter(s, test, want) <==> v in s && test(v) == want
  {
    if s != [] {
      var n := |s| - 1;
      FilterMembers(s[..n], test, want, v);
      assert s == s[..n] + [s[n]];
    }
  }

  /** Filtering keeps elements distinct. */
  lemma {:induction false} FilterNoDup<T>(s: seq<T>, test: T -> bool, want: bool)
    requires NoDup(s)
    ensures NoDup(Filter(s, test, want))
  {
    if s != [] {
      var n := |s| - 1;
      var front := Filter(s[..n], test, want);
      FilterNoDup(s[..n], test, want);
      forall a | 0 <= a < |front|
        ensures front[a] != s[n]
      {
        FilterMembers(s[..n], test, want, front[a]);
      }
    }
  }

  /** When the test holds everywhere, everything is kept on the `true` side and nothing on the other. */
  lemma {:induction false} FilterAll<T>(s: seq<T>, test: T -> bool)
    requires forall v | v in s :: test(v)
    ensures Filter(s, test, false) == []
    ensures Filter(s, test, true) == s
  {
    if s != [] {
      var n := |s| - 1;
      FilterAll(s[..n], test);
      assert s == s[..n] + [s[n]];
    }
  }

  /** Once every tile's file exists, a fresh partition leaves nothing to download. */
  lemma NothingToDownload(ts: seq<Tile>, outPath: string, jobName: string, files: set<string>)
    requires forall t | t in ts :: t.FullPath(outPath, jobName) in files
    ensures Filter(ts, OnDisk(outPath, jobName, files), false) == []
    ensures Filter(ts, OnDisk(outPath, jobName, files), true) == ts
  {
    FilterAll(ts, OnDisk(outPath, jobName, files));
  }

  /**
   * The outer loop of gen_download_lists: the zoom levels lo..hi of `all`,
   * lowest first, appended to the lists `missing` and `present` it is given;
   * `fileExists` is the test of a tile's file.
   */
  method GenAllZoomLists(all: map<nat, seq<Tile>>, lo: nat, hi: int, fileExists: Tile -> bool,
                         missing: seq<Tile>, present: seq<Tile>)
    returns (missing': seq<Tile>, present': seq<Tile>)
    requires forall z: nat :: lo <= z <= hi ==> z in all
    ensures missing' == missing + Filter(AllTiles(all, lo, hi), fileExists, false)
    ensures present' == present + Filter(AllTiles(all, lo, hi), fileExists, true)
  {
    var m, p := GenZoomRange(all, lo, hi, fileExists);
    missing', present' := missing + m, present + p;
  }

  /** The two selections of the zoom levels lo..hi, built level by level. */
  method GenZoomRange(all: map<nat, seq<Tile>>, lo: nat, hi: int, fileExists: Tile -> bool)
    returns (m: seq<Tile>, p: seq<Tile>)
    requires forall z: nat :: lo <= z <= hi ==> z in all
    ensures m == Filter(AllTiles(all, lo, hi), fileExists, false)
    ensures p == Filter(AllTiles(all, lo, hi), fileExists, true)
  {
    m, p := [], [];
    if hi < lo {
      assert AllTiles(all, lo, hi) == [];
      return;
    }
    var zoom: int, done: int := lo, lo - 1;
    while zoom <= hi
      invariant lo <= zoom <= hi + 1 && done == zoom - 1
      invariant m == Filter(AllTiles(all, lo, done), fileExists, false)
      invariant p == Filter(AllTiles(all, lo, done), fileExists, true)
    {
      m, p := GenNextZoom(all, lo, zoom, fileExists, m, p);
      done, zoom := zoom, zoom + 1;
    }
  }

  /** One pass of that loop: zoom level `zoom` is added to the selections of the levels below it. */
  method GenNextZoom(all: map<nat, seq<Tile>>, lo: nat, zoom: nat, fileExists: Tile -> bool, m: seq<Tile>, p: seq<Tile>)
    returns (m': seq<Tile>, p': seq<Tile>)
    requires lo <= zoom && zoom in all
    requires m == Filter(AllTiles(all, lo, zoom - 1), fileExists, false)
    requires p == Filter(AllTiles(all, lo, zoom - 1), fileExists, true)
    ensures m' == Filter(AllTiles(all, lo, zoom), fileExists, false)
    ensures p' == Filter(AllTiles(all, lo, zoom), fileExists, true)
  {
    m', p' := GenZoomLists(all[zoom], fileExists, m, p);
    FilterNextZoom(all, lo, zoom, fileExists, false, m, m');
    FilterNextZoom(all, lo, zoom, fileExists, true, p, p');
  }

  /**
   * The inner loop of gen_download_lists: the tiles of one zoom level, in
   * order, each appended to `missing` or `present` by its file test.
   */
  method GenZoomLists(tiles: seq<Tile>, fileExists: Tile -> bool, missing: seq<Tile>, present: seq<Tile>)
    returns (missing': seq<Tile>, present': seq<Tile>)
    ensures missing' == missing + Filter(tiles, fileExists, false)
    ensures present' == present + Filter(tiles, fileExists, true)
  {
    missing', present' := missing, present;
    for j := 0 to |tiles|
      invariant missing' == missing + Filter(tiles[..j], fileExists, false)
      invariant present' == present + Filter(tiles[..j], fileExists, true)
    {
      var tile := tiles[j];
      FilterPrefix(tiles, j, fileExists);
      if !fileExists(tile) {
        missing' := missing' + [tile];
      } else {
        present' := present' + [tile];
      }
    }
    assert tiles[..|tiles|] == tiles;
  }

  class TileDownloadJob {
    var counts: map<Counter, int>
    const outPath: string
    const jobName: string
    const tileset: TileSet
    var downloads: seq<Tile>
    var existing: seq<Tile>

    /** The tiles still to fetch are distinct objects. */
    ghost predicate Valid()
      reads this
    {
      NoDup(downloads)
    }

    /** All tiles of the tile set, zoom by zoom. */
    function Tiles(): seq<Tile>
      reads tileset
      requires tileset.HasZooms()
    {
      AllTiles(tileset.tiles, tileset.zoomMin, tileset.zoomMax)
    }

    constructor (outPath: string, tileset: TileSet, disk: Disk)
      requires tileset.Valid()
      ensures this.outPath == outPath && this.tileset == tileset && jobName == tileset.folder
      ensures downloads == Filter(Tiles(), OnDisk(outPath, jobName, disk.files), false)
      ensures existing == Filter(Tiles(), OnDisk(outPath, jobName, disk.files), true)
      ensures counts == map[Download := |downloads|, Exists := |existing|]
      ensures counts[Download] + counts[Exists] == |Tiles()|
      ensures Valid()
    {
      counts := map[];
      this.outPath := outPath;
      jobName := tileset.folder;
      this.tileset := tileset;
      downloads := [];
      existing := [];
      new;
      GenDownloadLists(disk);
      FilterPartition(Tiles(), OnDisk(outPath, jobName, disk.files));
      TilesTagged(tileset);
      AllTilesDistinct(tileset.tiles, tileset.zoomMin, tileset.zoomMax);
      FilterNoDup(Tiles(), OnDisk(outPath, jobName, disk.files), false);
    }

    /**
     * Appends each tile, in enumeration order, to `downloads` when its file is
     * missing and to `existing` when it is there, then records both lengths.
     */
    method GenDownloadLists(disk: Disk)
      requires tileset.HasZooms()
      modifies this`downloads, this`existing, this`counts
      ensures downloads == old(downloads) + Filter(Tiles(), OnDisk(outPath, jobName, disk.files), false)
      ensures existing == old(existing) + Filter(Tiles(), OnDisk(outPath, jobName, disk.files), true)
      ensures counts == old(counts)[Download := |downloads|][Exists := |existing|]
    {
      var fileExists := OnDisk(outPath, jobName, disk.files);
      downloads, existing := GenAllZoomLists(tileset.tiles, tileset.zoomMin, tileset.zoomMax, fileExists, downloads, existing);
      counts := counts[Download := |downloads|][Exists := |existing|];
    }

    /** One request: counts the attempt, then classifies the answer and attaches any image. */
    method Fetch(tile: Tile, outcome: Outcome, blank: Option<Payload>)
      requires HasFetchCounters(counts)
      modifies this`counts, tile`image
      ensures counts == Tally(old(counts), outcome)
      ensures tile.image == AfterFetch(outcome, old(tile.image), blank)
    {
      counts := counts[Attempted := counts[Attempted] + 1];
      match outcome
      case Fetched(body) =>
        tile.image := Some(body);
        counts := counts[FoundCount := counts[FoundCount] + 1];
      case HttpError(code) =>
        if code == 403 {
          counts := counts[BlockedCount := counts[BlockedCount] + 1];
        } else if code == 404 {
          counts := counts[NotFoundCount := counts[NotFoundCount] + 1];
          if blank.Some? {
            tile.image := blank;
          }
        }
      case UrlError =>
    }

    /**
     * The pool's run of `fetch` over `downloads`: each tile is fetched once,
     * in order, `outcomes[i]` being the answer for `downloads[i]`.
     */
    method FetchAll(outcomes: seq<Outcome>, blank: Option<Payload>)
      requires NoDup(downloads) && |outcomes| == |downloads| && HasFetchCounters(counts)
      modifies this`counts, downloads
      ensures counts == TallyAll(old(counts), outcomes)
      ensures forall k :: 0 <= k < |downloads| ==> downloads[k].image == AfterFetch(outcomes[k], old(downloads[k].image), blank)
    {
      var ts := downloads;
      ghost var before := Images(ts);
      assert outcomes[..0] == [];
      for i := 0 to |ts|
        invariant counts == TallyAll(old(counts), outcomes[..i])
        invariant forall k :: 0 <= k < i ==> ts[k].image == AfterFetch(outcomes[k], before[k], blank)
        invariant forall k :: i <= k < |ts| ==> ts[k].image == before[k]
      {
        assert forall k :: 0 <= k < |ts| && k != i ==> ts[k] != ts[i];
        Fetch(ts[i], outcomes[i], blank);
        assert outcomes[..i + 1][..i] == outcomes[..i];
      }
      assert outcomes[..|ts|] == outcomes;
    }

    /**
     * One pass of that loop: a tile holding an image is written to its file,
     * loses its payload and is appended to `existing`; any other tile is left as is.
     */
    method SaveTile(tile: Tile, disk: Disk)
      modifies this`existing, disk, tile`image
      ensures existing == old(existing) + if HasImage(old(tile.image)) then [tile] else []
      ensures disk.files == old(disk.files) + if HasImage(old(tile.image)) then {tile.FullPath(outPath, jobName)} else {}
      ensures tile.image == Cleared(old(tile.image))
    {
      var filename := tile.FullPath(outPath, jobName);
      if tile.image.Some? && |tile.image.value| > 0 {
        disk.files := disk.files + {filename};
        tile.image := None;
        existing := existing + [tile];
      }
    }

    /**
     * The loop over the fetched tiles: each tile that holds an image is saved
     * under its file, loses its payload and is appended to `existing`.
     */
    method SaveFetched(disk: Disk)
      requires NoDup(downloads)
      modifies this`existing, disk, downloads
      ensures existing == old(existing) + Saved(downloads, old(Images(downloads)))
      ensures disk.files == old(disk.files) + FilesOf(Saved(downloads, old(Images(downloads))), outPath, jobName)
      ensures forall k :: 0 <= k < |downloads| ==> downloads[k].image == Cleared(old(downloads[k].image))
    {
      var ts := downloads;
      ghost var before := Images(ts);
      assert ts[..0] == [] && before[..0] == [];
      for i := 0 to |ts|
        invariant existing == old(existing) + Saved(ts[..i], before[..i])
        invariant disk.files == old(disk.files) + FilesOf(Saved(ts[..i], before[..i]), outPath, jobName)
        invariant forall k :: 0 <= k < i ==> ts[k].image == Cleared(before[k])
        invariant forall k :: i <= k < |ts| ==> ts[k].image == before[k]
      {
        SaveNext(ts, before, i, disk, old(existing), old(disk.files));
      }
      assert ts[..|ts|] == ts && before[..|ts|] == before;
    }

    /** One pass of that loop: tile i is saved and cleared, and the tiles around it are left alone. */
    method SaveNext(ts: seq<Tile>, ghost before: seq<Option<Payload>>, i: nat, disk: Disk,
                    ghost existing0: seq<Tile>, ghost files0: set<string>)
      requires NoDup(ts) && |before| == |ts| && i < |ts|
      requires existing == existing0 + Saved(ts[..i], before[..i])
      requires disk.files == files0 + FilesOf(Saved(ts[..i], before[..i]), outPath, jobName)
      requires forall k :: 0 <= k < i ==> ts[k].image == Cleared(before[k])
      requires forall k :: i <= k < |ts| ==> ts[k].image == before[k]
      modifies this`existing, disk, ts[i]
      ensures existing == existing0 + Saved(ts[..i + 1], before[..i + 1])
      ensures disk.files == files0 + FilesOf(Saved(ts[..i + 1], before[..i + 1]), outPath, jobName)
      ensures forall k :: 0 <= k < i + 1 ==> ts[k].image == Cleared(before[k])
      ensures forall k :: i + 1 <= k < |ts| ==> ts[k].image == before[k]
    {
      assert forall k :: 0 <= k < |ts| && k != i ==> ts[k] != ts[i];
      ghost var e0, f0 := existing, disk.files;
      SaveTile(ts[i], disk);
      SavedStep(ts, before, i, outPath, jobName, existing0, files0, e0, f0, existing, disk.files);
    }

    /**
     * Resets the four fetch counters, fetches every tile of `downloads` in
     * order (`outcomes[i]` is the answer for `downloads[i]`) and saves, clears
     * and appends to `existing` each tile that obtained an image.
     */
    method GetTiles(outcomes: seq<Outcome>, blank: Option<Payload>, disk: Disk)
      requires Valid() && |outcomes| == |downloads|
      modifies this`counts, this`existing, disk, downloads
      ensures downloads == old(downloads) && Valid()
      ensures counts == TallyAll(Reset(old(counts)), outcomes)
      ensures var after := Afters(outcomes, old(Images(downloads)), blank);
        && existing == old(existing) + Saved(downloads, after)
        && disk.files == old(disk.files) + FilesOf(Saved(downloads, after), outPath, jobName)
        && forall i :: 0 <= i < |downloads| ==> downloads[i].image == Cleared(after[i])
    {
      ghost var before := Images(downloads);
      ghost var after := Afters(outcomes, before, blank);
      assert |after| == |downloads|;
      counts := Reset(counts);
      FetchAll(outcomes, blank);
      assert Images(downloads) == after;
      SaveFetched(disk);
    }
  }
}
