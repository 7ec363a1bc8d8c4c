/**
 * The media part of one run, end to end: resolve the configuration, select the
 * media from the manifest's catalog, fix the total size, then sync. The manifest is
 * an input value here; fetching it, and saving questions and texts, are not modelled.
 */
module Dumper {
  import opened Wrappers
  import opened Config
  import opened Catalog
  import opened MediaPaths
  import opened MediaSync

  /** How the run ends: a start-up error (exit 1 before any network activity), or the
      sync's result with the total fixed before the loop and the progress reached. */
  datatype DumpOutcome =
    | ConfigFailed(error: ConfigError)
    | Synced(result: SyncResult, totalSize: int, progress: int)

  method DumpMedia(env: Environment, flags: Flags, groups: seq<MediaGroup>, fs: FileSystem,
                   fetch: string -> Bytes, digest: Bytes -> string)
    returns (outcome: DumpOutcome, ghost fetched: seq<string>)
    ensures Resolve(env, flags).Err? ==> outcome == ConfigFailed(Resolve(env, flags).error) && fetched == []
    ensures Resolve(env, flags).Ok? ==>
              var settings := Resolve(env, flags).value;
              var media := SelectMedia(groups, settings.quality, settings.mediaType);
              var t := Run(settings.directory, media, fs, fetch, digest);
              outcome == Synced(t.result, TotalDownloadSize(media), t.progress) && fetched == t.fetched
    ensures outcome.Synced? && outcome.result.Done? ==> outcome.progress == outcome.totalSize
  {
    var config := Resolve(env, flags);
    if config.Err? {
      return ConfigFailed(config.error), [];
    }
    var settings := config.value;
    var media := SelectMedia(groups, settings.quality, settings.mediaType);
    var total := TotalDownloadSize(media);
    var result, progress;
    result, progress, fetched := SyncMedia(settings.directory, media, fs, fetch, digest);
    outcome := Synced(result, total, progress);
  }

  // ---------------------------------------------------------------------------
  // One-item scenarios

  /** The URL of the scenarios; its last segment is "a.jpg". */
  const ItemUrl: string := "https://x/y/a.jpg"

  /** A catalog with one "High" "QuestionImage" group holding one item of size 1000000. */
  function OneImageCatalog(url: string, hash: string): seq<MediaGroup>
  {
    [MediaGroup("High", "QuestionImage", [MediaItem("a", url, hash, 1000000)])]
  }

  lemma ItemUrlLastSegment()
    ensures LastSegment(ItemUrl) == "a.jpg"
  {
    assert IsLastSegment("a.jpg", ItemUrl) by {
      assert ItemUrl[|ItemUrl| - 5..] == "a.jpg";
      assert ItemUrl[|ItemUrl| - 6] == '/';
    }
    LastSegmentUnique(ItemUrl, "a.jpg");
  }

  /** With preferences high/image that item is selected and tagged "high". */
  lemma HighImageIsSelected(url: string, hash: string)
    ensures SelectMedia(OneImageCatalog(url, hash), "high", "image") == [Download("a", url, hash, 1000000, "high")]
  {
    var g := OneImageCatalog(url, hash)[0];
    assert Lower("High") == "high";
    assert FilterGroups(OneImageCatalog(url, hash), "high", "image") == [g];
    assert Annotate(g) == [Download("a", url, hash, 1000000, "high")];
    assert Flatten([g]) == Annotate(g) + Flatten([]);
  }

  /** Synced into an empty directory, an item whose URL ends in "a.jpg" (as `ItemUrl`
      does) is fetched once, its digest matches, and it is written to media/high/a.jpg
      below the default directory. */
  lemma HighImageIsWritten(url: string, hash: string, fetch: string -> Bytes, digest: Bytes -> string)
    requires LastSegment(url) == "a.jpg"
    requires digest(fetch(url)) == hash
    ensures Run(DefaultDirectory, SelectMedia(OneImageCatalog(url, hash), "high", "image"), map[], fetch, digest)
         == Trace(Done(map["./dump/media/high/a.jpg" := fetch(url)]), [url], 1000000)
  {
    HighImageIsSelected(url, hash);
    var media := [Download("a", url, hash, 1000000, "high")];
    DestinationShape(DefaultDirectory, "high", url);
    assert Target(DefaultDirectory, media[0]) == "./dump/media/high/a.jpg";
    RunFrom(DefaultDirectory, media, 0, map[], fetch, digest);
    assert media[0..] == media && media[1..] == [];
  }

  /** The same item with --quality low is not selected, so nothing is fetched. */
  lemma LowQualitySelectsNothing(url: string, hash: string, fetch: string -> Bytes, digest: Bytes -> string)
    ensures SelectMedia(OneImageCatalog(url, hash), "low", DefaultMediaType) == []
    ensures Run(DefaultDirectory, SelectMedia(OneImageCatalog(url, hash), "low", DefaultMediaType), map[], fetch, digest)
         == Trace(Done(map[]), [], 0)
  {
    assert FilterGroups(OneImageCatalog(url, hash), "low", DefaultMediaType) == [];
  }
}
