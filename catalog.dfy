/**
 * The media catalog of the manifest: the groups of media items, the preference
 * filter that runs on groups, the flattening into one download list annotated with
 * the group's lower-cased quality, and the total download size.
 */
module Catalog {

  /** One downloadable asset as listed inside a group. */
  datatype MediaItem = MediaItem(id: string, url: string, hash: string, size: int)

  /** One entry of the catalog's list of groups: a quality tag ("High"/"Low"), a media
      type ("QuestionImage"/"QuestionVideo") and the items. Tags are kept as the raw
      strings the manifest carries. */
  datatype MediaGroup = MediaGroup(quality: string, mediaType: string, mediaItems: seq<MediaItem>)

  /** A media item after flattening: its own fields plus the group's quality, lower-cased. */
  datatype Download = Download(id: string, url: string, hash: string, size: int, quality: string)

  /** `a` is `b` with some elements left out, the rest in their original order. */
  predicate IsSubsequence<T(==)>(a: seq<T>, b: seq<T>)
    decreases |b|
  {
    |a| == 0 || (|b| > 0 && ((a[0] == b[0] && IsSubsequence(a[1..], b[1..])) || IsSubsequence(a, b[1..])))
  }

  // ---------------------------------------------------------------------------
  // The group filter

  /** The filter callback, one early `return false` per excluding condition. */
  predicate Keep(quality: string, mediaType: string, g: MediaGroup)
  {
    if g.quality == "Low" && quality == "high" then false
    else if g.quality == "High" && quality == "low" then false
    else if mediaType == "image" && g.mediaType != "QuestionImage" then false
    else if mediaType == "video" && g.mediaType != "QuestionVideo" then false
    else true
  }

  /** `mediaItemLists.filter(...)`: the groups the preferences keep, in manifest order. */
  function FilterGroups(groups: seq<MediaGroup>, quality: string, mediaType: string): (kept: seq<MediaGroup>)
    ensures |kept| <= |groups|
    ensures IsSubsequence(kept, groups)
    ensures forall g :: g in kept ==> g in groups && Keep(quality, mediaType, g)
    ensures forall g :: g in groups && Keep(quality, mediaType, g) ==> g in kept
    decreases |groups|
  {
    if |groups| == 0 then []
    else
      var rest := FilterGroups(groups[1..], quality, mediaType);
      if Keep(quality, mediaType, groups[0]) then [groups[0]] + rest
      else
        assert |rest| > 0 ==> rest[0] in rest;
        rest
  }

  /** Filtering a list every group of which passes changes nothing. */
  lemma {:induction false} FilterKeepsAll(groups: seq<MediaGroup>, quality: string, mediaType: string)
    requires forall i :: 0 <= i < |groups| ==> Keep(quality, mediaType, groups[i])
    ensures FilterGroups(groups, quality, mediaType) == groups
    decreases |groups|
  {
    if |groups| > 0 {
      FilterKeepsAll(groups[1..], quality, mediaType);
    }
  }

  /** Filtering twice with the same preferences is filtering once. */
  lemma FilterIdempotent(groups: seq<MediaGroup>, quality: string, mediaType: string)
    ensures var once := FilterGroups(groups, quality, mediaType);
            FilterGroups(once, quality, mediaType) == once
  {
    var once := FilterGroups(groups, quality, mediaType);
    assert forall i :: 0 <= i < |once| ==> once[i] in once;
    FilterKeepsAll(once, quality, mediaType);
  }

  /** The filter decides group by group: it distributes over concatenation. */
  lemma {:induction false} FilterAppend(a: seq<MediaGroup>, b: seq<MediaGroup>, quality: string, mediaType: string)
    ensures FilterGroups(a + b, quality, mediaType)
         == FilterGroups(a, quality, mediaType) + FilterGroups(b, quality, mediaType)
    decreases |a|
  {
    if |a| > 0 {
      assert (a + b)[0] == a[0];
      assert (a + b)[1..] == a[1..] + b;
      FilterAppend(a[1..], b, quality, mediaType);
    } else {
      assert a + b == b;
    }
  }

  /** --quality high drops every group tagged "Low". */
  lemma QualityHighExcludesLow(groups: seq<MediaGroup>, mediaType: string)
    ensures forall g :: g in FilterGroups(groups, "high", mediaType) ==> g.quality != "Low"
  {
  }

  /** --quality low drops every group tagged "High". */
  lemma QualityLowExcludesHigh(groups: seq<MediaGroup>, mediaType: string)
    ensures forall g :: g in FilterGroups(groups, "low", mediaType) ==> g.quality != "High"
  {
  }

  /** --media-types image keeps only "QuestionImage" groups. */
  lemma ImageKeepsOnlyImages(groups: seq<MediaGroup>, quality: string)
    ensures forall g :: g in FilterGroups(groups, quality, "image") ==> g.mediaType == "QuestionImage"
  {
  }

  /** --media-types video keeps only "QuestionVideo" groups. */
  lemma VideoKeepsOnlyVideos(groups: seq<MediaGroup>, quality: string)
    ensures forall g :: g in FilterGroups(groups, quality, "video") ==> g.mediaType == "QuestionVideo"
  {
  }

  /** A quality other than "high" or "low" (so "both", the empty string kept by `??`)
      excludes nothing on the quality axis. */
  lemma {:induction false} QualityAxisOpen(groups: seq<MediaGroup>, quality: string, mediaType: string)
    requires quality != "high" && quality != "low"
    ensures FilterGroups(groups, quality, mediaType) == FilterGroups(groups, "both", mediaType)
    decreases |groups|
  {
    if |groups| > 0 {
      QualityAxisOpen(groups[1..], quality, mediaType);
    }
  }

  /** A media type other than "image" or "video" (so "both", or any unrecognised value,
      which is never validated) excludes nothing on the media-type axis. */
  lemma {:induction false} MediaTypeAxisOpen(groups: seq<MediaGroup>, quality: string, mediaType: string)
    requires mediaType != "image" && mediaType != "video"
    ensures FilterGroups(groups, quality, mediaType) == FilterGroups(groups, quality, "both")
    decreases |groups|
  {
    if |groups| > 0 {
      MediaTypeAxisOpen(groups[1..], quality, mediaType);
    }
  }

  /** With neither axis restricted (the default both/both among them) every group is kept. */
  lemma NoRestrictionKeepsAll(groups: seq<MediaGroup>, quality: string, mediaType: string)
    requires quality != "high" && quality != "low"
    requires mediaType != "image" && mediaType != "video"
    ensures FilterGroups(groups, quality, mediaType) == groups
  {
    FilterKeepsAll(groups, quality, mediaType);
  }

  // ---------------------------------------------------------------------------
  // Flattening

  /** ASCII lower-casing of one character. */
  function LowerChar(c: char): char
  {
    if 'A' <= c <= 'Z' then (c as int - 'A' as int + 'a' as int) as char else c
  }

  /** `toLowerCase()` restricted to ASCII letters. */
  function Lower(s: string): string
  {
    seq(|s|, i requires 0 <= i < |s| => LowerChar(s[i]))
  }

  /** `{ ...media, quality }`: the item with the given quality attached. */
  function Tag(m: MediaItem, quality: string): Download
  {
    Download(m.id, m.url, m.hash, m.size, quality)
  }

  /** `item.mediaItems.map(...)` for one group. */
  function Annotate(g: MediaGroup): (ds: seq<Download>)
    ensures |ds| == |g.mediaItems|
    ensures forall j :: 0 <= j < |ds| ==> ds[j] == Tag(g.mediaItems[j], Lower(g.quality))
  {
    seq(|g.mediaItems|, j requires 0 <= j < |g.mediaItems| => Tag(g.mediaItems[j], Lower(g.quality)))
  }

  /** The number of media items in a list of groups. */
  function ItemCount(groups: seq<MediaGroup>): nat
    decreases |groups|
  {
    if |groups| == 0 then 0 else |groups[0].mediaItems| + ItemCount(groups[1..])
  }

  /** `.map(...).flat(1)`: the groups' annotated items one after the other. */
  function Flatten(groups: seq<MediaGroup>): (ds: seq<Download>)
    ensures |ds| == ItemCount(groups)
    decreases |groups|
  {
    if |groups| == 0 then [] else Annotate(groups[0]) + Flatten(groups[1..])
  }

  lemma {:induction false} ItemCountAppend(a: seq<MediaGroup>, b: seq<MediaGroup>)
    ensures ItemCount(a + b) == ItemCount(a) + ItemCount(b)
    decreases |a|
  {
    if |a| > 0 {
      assert (a + b)[1..] == a[1..] + b;
      ItemCountAppend(a[1..], b);
    } else {
      assert a + b == b;
    }
  }

  /** Flattening distributes over concatenation of group lists. */
  lemma {:induction false} FlattenAppend(a: seq<MediaGroup>, b: seq<MediaGroup>)
    ensures Flatten(a + b) == Flatten(a) + Flatten(b)
    decreases |a|
  {
    if |a| > 0 {
      assert (a + b)[0] == a[0];
      assert (a + b)[1..] == a[1..] + b;
      FlattenAppend(a[1..], b);
    } else {
      assert a + b == b;
    }
  }

  /** Item `j` of group `i` lands at position "items of the groups before `i`" plus `j`,
      carrying group `i`'s quality lower-cased: the output is the groups' items in order. */
  lemma FlattenAt(groups: seq<MediaGroup>, i: int, j: int)
    requires 0 <= i < |groups| && 0 <= j < |groups[i].mediaItems|
    ensures ItemCount(groups[..i]) + j < |Flatten(groups)|
    ensures Flatten(groups)[ItemCount(groups[..i]) + j] == Tag(groups[i].mediaItems[j], Lower(groups[i].quality))
  {
    var before, after := groups[..i], groups[i + 1..];
    assert groups == before + ([groups[i]] + after);
    FlattenAppend(before, [groups[i]] + after);
    FlattenAppend([groups[i]], after);
    assert Flatten([groups[i]]) == Annotate(groups[i]) + Flatten([]);
  }

  /** Every flattened item is some group's item tagged with that group's quality, lower-cased. */
  lemma {:induction false} FlattenOrigin(groups: seq<MediaGroup>, k: int)
    requires 0 <= k < |Flatten(groups)|
    ensures exists i, j :: 0 <= i < |groups| && 0 <= j < |groups[i].mediaItems|
                        && Flatten(groups)[k] == Tag(groups[i].mediaItems[j], Lower(groups[i].quality))
    decreases |groups|
  {
    var first := Annotate(groups[0]);
    if k < |first| {
      assert Flatten(groups)[k] == first[k];
    } else {
      FlattenOrigin(groups[1..], k - |first|);
      var i, j :| 0 <= i < |groups[1..]| && 0 <= j < |groups[1..][i].mediaItems|
               && Flatten(groups[1..])[k - |first|] == Tag(groups[1..][i].mediaItems[j], Lower(groups[1..][i].quality));
      assert groups[1..][i] == groups[i + 1];
    }
  }

  // ---------------------------------------------------------------------------
  // Sizes

  /** The sum of `size` over a download list. */
  function SumSizes(ds: seq<Download>): int
    decreases |ds|
  {
    if |ds| == 0 then 0 else ds[0].size + SumSizes(ds[1..])
  }

  /** `reduce((acc, item) => acc + item.size, acc)`: the left fold the source runs. */
  function FoldSizes(acc: int, ds: seq<Download>): int
    decreases |ds|
  {
    if |ds| == 0 then acc else FoldSizes(acc + ds[0].size, ds[1..])
  }

  /** `totalDownloadSize`. */
  function TotalDownloadSize(ds: seq<Download>): int
  {
    FoldSizes(0, ds)
  }

  /** The left fold from `acc` is `acc` plus the sum. */
  lemma {:induction false} FoldSizesIsSum(acc: int, ds: seq<Download>)
    ensures FoldSizes(acc, ds) == acc + SumSizes(ds)
    decreases |ds|
  {
    if |ds| > 0 {
      FoldSizesIsSum(acc + ds[0].size, ds[1..]);
    }
  }

  /** `totalDownloadSize` is the sum of `size` over the flattened list. */
  lemma TotalIsSum(ds: seq<Download>)
    ensures TotalDownloadSize(ds) == SumSizes(ds)
  {
    FoldSizesIsSum(0, ds);
  }

  lemma {:induction false} SumSizesAppend(a: seq<Download>, b: seq<Download>)
    ensures SumSizes(a + b) == SumSizes(a) + SumSizes(b)
    decreases |a|
  {
    if |a| > 0 {
      assert (a + b)[1..] == a[1..] + b;
      SumSizesAppend(a[1..], b);
    } else {
      assert a + b == b;
    }
  }

  /** The sum of `size` over a group's own items. */
  function ItemSizes(ms: seq<MediaItem>): int
    decreases |ms|
  {
    if |ms| == 0 then 0 else ms[0].size + ItemSizes(ms[1..])
  }

  /** The sum of `size` over every item of every group. */
  function CatalogSize(groups: seq<MediaGroup>): int
    decreases |groups|
  {
    if |groups| == 0 then 0 else ItemSizes(groups[0].mediaItems) + CatalogSize(groups[1..])
  }

  /** Tagging keeps each item's size. */
  lemma {:induction false} AnnotatedSize(g: MediaGroup)
    ensures SumSizes(Annotate(g)) == ItemSizes(g.mediaItems)
    decreases |g.mediaItems|
  {
    if |g.mediaItems| > 0 {
      var rest := g.(mediaItems := g.mediaItems[1..]);
      assert Annotate(g)[1..] == Annotate(rest);
      AnnotatedSize(rest);
    }
  }

  /** Annotation keeps each size, so the flattened total is the catalog's total. */
  lemma {:induction false} FlattenSize(groups: seq<MediaGroup>)
    ensures SumSizes(Flatten(groups)) == CatalogSize(groups)
    decreases |groups|
  {
    if |groups| > 0 {
      var g := groups[0];
      AnnotatedSize(g);
      SumSizesAppend(Annotate(g), Flatten(groups[1..]));
      FlattenSize(groups[1..]);
    }
  }

  // ---------------------------------------------------------------------------
  // The whole catalog step

  /** `filteredMedia`: filter the groups, then flatten the kept ones. */
  function SelectMedia(groups: seq<MediaGroup>, quality: string, mediaType: string): (ds: seq<Download>)
    ensures |ds| == ItemCount(FilterGroups(groups, quality, mediaType))
  {
    Flatten(FilterGroups(groups, quality, mediaType))
  }
}
