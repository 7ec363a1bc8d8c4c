/**
 * The media sync loop: for each selected download, in order, skip it when its
 * destination exists, otherwise fetch it, compare the digest of the bytes with the
 * manifest's hash, stop the whole run on a mismatch and write the file on a match.
 * The filesystem is a map from paths to contents; fetching and hashing are
 * functions passed in.
 */
module MediaSync {
  import opened Catalog
  import opened MediaPaths

  newtype byte = x: int | 0 <= x < 256

  type Bytes = seq<byte>

  /** The files below the output directory, by path. */
  type FileSystem = map<string, Bytes>

  /** `Done` when every item was handled; `Aborted` with the item id, the expected hash
      and the computed digest on a mismatch. Both carry the filesystem at that point. */
  datatype SyncResult =
    | Done(files: FileSystem)
    | Aborted(id: string, expected: string, actual: string, files: FileSystem)

  /** What one item does. */
  datatype StepOutcome =
    | Skipped
    | Written(path: string, body: Bytes)
    | Mismatch(id: string, expected: string, actual: string)

  /** A run's result, the URLs it fetched in order, and how far the progress counter
      advanced (in the items' own size unit). */
  datatype Trace = Trace(result: SyncResult, fetched: seq<string>, progress: int)

  /** The destination of a download. */
  function Target(directory: string, d: Download): string
  {
    Destination(directory, d.quality, d.url)
  }

  /** One iteration of the loop body. */
  function Step(directory: string, d: Download, fs: FileSystem,
                fetch: string -> Bytes, digest: Bytes -> string): (s: StepOutcome)
    ensures s.Skipped? <==> Target(directory, d) in fs
    ensures s.Written? <==> Target(directory, d) !in fs && digest(fetch(d.url)) == d.hash
    ensures s.Written? ==> s.path == Target(directory, d) && s.body == fetch(d.url)
    ensures s.Mismatch? ==>
              s.id == d.id && s.expected == d.hash && s.actual == digest(fetch(d.url)) && s.actual != s.expected
  {
    var path := Target(directory, d);
    if path in fs then Skipped
    else
      var body := fetch(d.url);
      var actual := digest(body);
      if actual != d.hash then Mismatch(d.id, d.hash, actual)
      else Written(path, body)
  }

  /** The filesystem after a step: only a successful download writes. */
  function After(fs: FileSystem, s: StepOutcome): FileSystem
  {
    if s.Written? then fs[s.path := s.body] else fs
  }

  /** The trace of a run whose first item `d` passed with outcome `s`, followed by `t`. */
  function Extend(d: Download, s: StepOutcome, t: Trace): Trace
  {
    Trace(t.result, (if s.Written? then [d.url] else []) + t.fetched, d.size + t.progress)
  }

  /** The whole run, item by item from the front. */
  function Run(directory: string, media: seq<Download>, fs: FileSystem,
               fetch: string -> Bytes, digest: Bytes -> string): Trace
    decreases |media|
  {
    if |media| == 0 then Trace(Done(fs), [], 0)
    else
      var s := Step(directory, media[0], fs, fetch, digest);
      if s.Mismatch? then Trace(Aborted(s.id, s.expected, s.actual, fs), [media[0].url], 0)
      else Extend(media[0], s, Run(directory, media[1..], After(fs, s), fetch, digest))
  }

  /** `Run` on the items from position `i` on, unfolded once. */
  lemma RunFrom(directory: string, media: seq<Download>, i: int, fs: FileSystem,
                fetch: string -> Bytes, digest: Bytes -> string)
    requires 0 <= i < |media|
    ensures var s := Step(directory, media[i], fs, fetch, digest);
            Run(directory, media[i..], fs, fetch, digest)
            == if s.Mismatch? then Trace(Aborted(s.id, s.expected, s.actual, fs), [media[i].url], 0)
               else Extend(media[i], s, Run(directory, media[i + 1..], After(fs, s), fetch, digest))
  {
    assert media[i..][0] == media[i];
    assert media[i..][1..] == media[i + 1..];
  }

  lemma ConcatAssoc<T>(a: seq<T>, b: seq<T>, c: seq<T>)
    ensures a + (b + c) == (a + b) + c
  {
  }

  /** The imperative loop. `fetched` is the ghost log of the URLs requested. */
  method SyncMedia(directory: string, media: seq<Download>, fs0: FileSystem,
                   fetch: string -> Bytes, digest: Bytes -> string)
    returns (result: SyncResult, progress: int, ghost fetched: seq<string>)
    ensures Trace(result, fetched, progress) == Run(directory, media, fs0, fetch, digest)
    ensures result.Done? ==> progress == TotalDownloadSize(media)
  {
    ghost var whole := Run(directory, media, fs0, fetch, digest);
    RunDoneProgress(directory, media, fs0, fetch, digest);
    TotalIsSum(media);
    var fs := fs0;
    progress := 0;
    fetched := [];
    for i := 0 to |media|
      invariant whole.result == Run(directory, media[i..], fs, fetch, digest).result
      invariant whole.fetched == fetched + Run(directory, media[i..], fs, fetch, digest).fetched
      invariant whole.progress == progress + Run(directory, media[i..], fs, fetch, digest).progress
    {
      var item := media[i];
      ghost var s := Step(directory, item, fs, fetch, digest);
      ghost var here := Run(directory, media[i..], fs, fetch, digest);
      ghost var next := Run(directory, media[i + 1..], After(fs, s), fetch, digest);
      RunFrom(directory, media, i, fs, fetch, digest);
      var filename := Target(directory, item);
      if filename in fs {
        assert s.Skipped? && here.fetched == next.fetched;
        progress := progress + item.size;
        continue;
      }
      var buffer := fetch(item.url);
      fetched := fetched + [item.url];
      var hash := digest(buffer);
      if hash != item.hash {
        assert here.fetched == [item.url];
        return Aborted(item.id, item.hash, hash, fs), progress, fetched;
      }
      assert s == Written(filename, buffer) && here.fetched == [item.url] + next.fetched;
      ConcatAssoc(fetched[..|fetched| - 1], [item.url], next.fetched);
      fs := fs[filename := buffer];
      progress := progress + item.size;
    }
    result := Done(fs);
  }

  // ---------------------------------------------------------------------------
  // Properties of a run

  /** If `a` aborts, anything after it is never reached. */
  lemma {:induction false} RunAppendAborted(directory: string, a: seq<Download>, b: seq<Download>, fs: FileSystem,
                                            fetch: string -> Bytes, digest: Bytes -> string)
    requires Run(directory, a, fs, fetch, digest).result.Aborted?
    ensures Run(directory, a + b, fs, fetch, digest) == Run(directory, a, fs, fetch, digest)
    decreases |a|
  {
    assert (a + b)[0] == a[0];
    assert (a + b)[1..] == a[1..] + b;
    var s := Step(directory, a[0], fs, fetch, digest);
    if !s.Mismatch? {
      RunAppendAborted(directory, a[1..], b, After(fs, s), fetch, digest);
    }
  }

  /** If `a` completes, the run of `a + b` continues with `b` on the files `a` left:
      same final result, and the progress of both parts added. */
  lemma {:induction false} RunAppendDone(directory: string, a: seq<Download>, b: seq<Download>, fs: FileSystem,
                                         fetch: string -> Bytes, digest: Bytes -> string)
    requires Run(directory, a, fs, fetch, digest).result.Done?
    ensures var ta := Run(directory, a, fs, fetch, digest);
            var tb := Run(directory, b, ta.result.files, fetch, digest);
            && Run(directory, a + b, fs, fetch, digest).result == tb.result
            && Run(directory, a + b, fs, fetch, digest).progress == ta.progress + tb.progress
    decreases |a|
  {
    if |a| == 0 {
      assert a + b == b;
    } else {
      assert (a + b)[0] == a[0];
      assert (a + b)[1..] == a[1..] + b;
      var s := Step(directory, a[0], fs, fetch, digest);
      RunAppendDone(directory, a[1..], b, After(fs, s), fetch, digest);
    }
  }

  /** If `a` completes, the URLs fetched by `a + b` are those `a` fetched followed by
      those `b` fetches on the files `a` left. */
  lemma {:induction false} RunAppendFetched(directory: string, a: seq<Download>, b: seq<Download>, fs: FileSystem,
                                            fetch: string -> Bytes, digest: Bytes -> string)
    requires Run(directory, a, fs, fetch, digest).result.Done?
    ensures var ta := Run(directory, a, fs, fetch, digest);
            Run(directory, a + b, fs, fetch, digest).fetched
            == ta.fetched + Run(directory, b, ta.result.files, fetch, digest).fetched
    decreases |a|
  {
    if |a| == 0 {
      assert a + b == b;
    } else {
      var s := Step(directory, a[0], fs, fetch, digest);
      var fs' := After(fs, s);
      assert (a + b)[0] == a[0];
      assert (a + b)[1..] == a[1..] + b;
      RunAppendFetched(directory, a[1..], b, fs', fetch, digest);
      var ta' := Run(directory, a[1..], fs', fetch, digest);
      var tb := Run(directory, b, ta'.result.files, fetch, digest);
      var head := if s.Written? then [a[0].url] else [];
      assert Run(directory, a, fs, fetch, digest).fetched == head + ta'.fetched;
      assert Run(directory, a + b, fs, fetch, digest).fetched == head + (ta'.fetched + tb.fetched);
      ConcatAssoc(head, ta'.fetched, tb.fetched);
    }
  }

  /** Items are handled strictly in order: when an earlier item already produced the
      destination of item `j`, item `j` fetches nothing and the run goes on. */
  lemma LaterDuplicateSkipped(directory: string, media: seq<Download>, i: int, j: int, fs: FileSystem,
                              fetch: string -> Bytes, digest: Bytes -> string)
    requires 0 <= i < j < |media| && Target(directory, media[i]) == Target(directory, media[j])
    requires Run(directory, media[..j], fs, fetch, digest).result.Done?
    ensures var before := Run(directory, media[..j], fs, fetch, digest);
            var after := Run(directory, media[j + 1..], before.result.files, fetch, digest);
            && Run(directory, media, fs, fetch, digest).result == after.result
            && Run(directory, media, fs, fetch, digest).fetched == before.fetched + after.fetched
  {
    var before := Run(directory, media[..j], fs, fetch, digest);
    var files := before.result.files;
    var after := Run(directory, media[j + 1..], files, fetch, digest);
    RunDoneComplete(directory, media[..j], fs, fetch, digest);
    assert media[..j][i] == media[i];
    assert Step(directory, media[j], files, fetch, digest).Skipped?;
    RunFrom(directory, media, j, files, fetch, digest);
    var mid := Run(directory, media[j..], files, fetch, digest);
    assert mid.result == after.result && mid.fetched == after.fetched;
    assert media[..j] + media[j..] == media;
    RunAppendDone(directory, media[..j], media[j..], fs, fetch, digest);
    RunAppendFetched(directory, media[..j], media[j..], fs, fetch, digest);
  }

  /** On completion the progress counter has advanced by the sum of all sizes: the
      total fixed before the loop. */
  lemma {:induction false} RunDoneProgress(directory: string, media: seq<Download>, fs: FileSystem,
                                           fetch: string -> Bytes, digest: Bytes -> string)
    ensures var t := Run(directory, media, fs, fetch, digest);
            t.result.Done? ==> t.progress == SumSizes(media)
    decreases |media|
  {
    if |media| > 0 {
      var s := Step(directory, media[0], fs, fetch, digest);
      if !s.Mismatch? {
        RunDoneProgress(directory, media[1..], After(fs, s), fetch, digest);
      }
    }
  }

  /** Files that existed before the run are never overwritten (trust-on-presence). */
  lemma {:induction false} RunKeepsExistingFiles(directory: string, media: seq<Download>, fs: FileSystem,
                                                 fetch: string -> Bytes, digest: Bytes -> string)
    ensures var files := Run(directory, media, fs, fetch, digest).result.files;
            forall p :: p in fs ==> p in files && files[p] == fs[p]
    decreases |media|
  {
    if |media| > 0 {
      var s := Step(directory, media[0], fs, fetch, digest);
      if !s.Mismatch? {
        var fs' := After(fs, s);
        assert forall p :: p in fs ==> p in fs' && fs'[p] == fs[p];
        RunKeepsExistingFiles(directory, media[1..], fs', fetch, digest);
      }
    }
  }

  /** The file at `p` is the destination of one of the items, holds the bytes fetched
      from its URL, and those bytes passed the hash check. */
  predicate WrittenFor(directory: string, media: seq<Download>, p: string, body: Bytes,
                       fetch: string -> Bytes, digest: Bytes -> string)
  {
    exists i :: 0 <= i < |media| && p == Target(directory, media[i])
             && body == fetch(media[i].url) && digest(body) == media[i].hash
  }

  /** Every file the run created was written for one of the items after its hash check. */
  lemma {:induction false} RunWritesOnlyVerified(directory: string, media: seq<Download>, fs: FileSystem,
                                                 fetch: string -> Bytes, digest: Bytes -> string)
    ensures var files := Run(directory, media, fs, fetch, digest).result.files;
            forall p :: p in files && p !in fs ==> WrittenFor(directory, media, p, files[p], fetch, digest)
    decreases |media|
  {
    if |media| > 0 {
      var s := Step(directory, media[0], fs, fetch, digest);
      if !s.Mismatch? {
        var fs', rest := After(fs, s), media[1..];
        var files := Run(directory, rest, fs', fetch, digest).result.files;
        RunWritesOnlyVerified(directory, rest, fs', fetch, digest);
        RunKeepsExistingFiles(directory, rest, fs', fetch, digest);
        forall p | p in files && p !in fs
          ensures WrittenFor(directory, media, p, files[p], fetch, digest)
        {
          if p in fs' {
            assert WrittenFor(directory, media, p, files[p], fetch, digest) by {
              assert p == Target(directory, media[0]);
            }
          } else {
            var i :| 0 <= i < |rest| && p == Target(directory, rest[i])
                   && files[p] == fetch(rest[i].url) && digest(files[p]) == rest[i].hash;
            assert rest[i] == media[i + 1];
          }
        }
      }
    }
  }

  /** A completed run leaves a file at every item's destination. */
  lemma {:induction false} RunDoneComplete(directory: string, media: seq<Download>, fs: FileSystem,
                                           fetch: string -> Bytes, digest: Bytes -> string)
    ensures var r := Run(directory, media, fs, fetch, digest).result;
            r.Done? ==> forall i :: 0 <= i < |media| ==> Target(directory, media[i]) in r.files
    decreases |media|
  {
    if |media| > 0 {
      var s := Step(directory, media[0], fs, fetch, digest);
      if !s.Mismatch? {
        var fs', rest := After(fs, s), media[1..];
        RunDoneComplete(directory, rest, fs', fetch, digest);
        RunKeepsExistingFiles(directory, rest, fs', fetch, digest);
        var r := Run(directory, rest, fs', fetch, digest).result;
        assert Target(directory, media[0]) in fs';
        forall i | 0 <= i < |media| && r.Done? ensures Target(directory, media[i]) in r.files {
          if i > 0 {
            assert rest[i - 1] == media[i];
          }
        }
      }
    }
  }

  /** Each fetch of a completed run created exactly one new file. */
  lemma {:induction false} RunDoneFileCount(directory: string, media: seq<Download>, fs: FileSystem,
                                            fetch: string -> Bytes, digest: Bytes -> string)
    ensures var t := Run(directory, media, fs, fetch, digest);
            t.result.Done? ==> |t.result.files| == |fs| + |t.fetched|
    decreases |media|
  {
    if |media| > 0 {
      var s := Step(directory, media[0], fs, fetch, digest);
      if !s.Mismatch? {
        RunDoneFileCount(directory, media[1..], After(fs, s), fetch, digest);
      }
    }
  }

  /** The URLs of a download list, in order. */
  function Urls(media: seq<Download>): (urls: seq<string>)
    ensures |urls| == |media|
    ensures forall i :: 0 <= i < |media| ==> urls[i] == media[i].url
  {
    seq(|media|, i requires 0 <= i < |media| => media[i].url)
  }

  /** The run requests only the items' URLs, each at most once per item, in the items' order. */
  lemma {:induction false} RunFetchesInOrder(directory: string, media: seq<Download>, fs: FileSystem,
                                             fetch: string -> Bytes, digest: Bytes -> string)
    ensures IsSubsequence(Run(directory, media, fs, fetch, digest).fetched, Urls(media))
    decreases |media|
  {
    if |media| > 0 {
      assert Urls(media)[1..] == Urls(media[1..]);
      var s := Step(directory, media[0], fs, fetch, digest);
      if !s.Mismatch? {
        var urls, tail := Urls(media), Run(directory, media[1..], After(fs, s), fetch, digest).fetched;
        RunFetchesInOrder(directory, media[1..], After(fs, s), fetch, digest);
        if s.Written? {
          assert Run(directory, media, fs, fetch, digest).fetched == [media[0].url] + tail;
          assert ([media[0].url] + tail)[1..] == tail;
          assert IsSubsequence([media[0].url] + tail, urls);
        } else {
          assert IsSubsequence(tail, urls[1..]);
          assert IsSubsequence(tail, urls);
          assert Run(directory, media, fs, fetch, digest).fetched == [] + tail == tail;
        }
      } else {
        assert IsSubsequence([media[0].url], Urls(media)) by {
          assert [media[0].url][1..] == [];
        }
      }
    }
  }

  /** When every destination is already present the run fetches nothing, writes
      nothing, and the progress counter reaches the total at once. */
  lemma {:induction false} RunAllPresent(directory: string, media: seq<Download>, fs: FileSystem,
                                         fetch: string -> Bytes, digest: Bytes -> string)
    requires forall i :: 0 <= i < |media| ==> Target(directory, media[i]) in fs
    ensures Run(directory, media, fs, fetch, digest) == Trace(Done(fs), [], SumSizes(media))
    decreases |media|
  {
    if |media| > 0 {
      assert Target(directory, media[0]) in fs;
      forall i | 0 <= i < |media[1..]| ensures Target(directory, media[1..][i]) in fs {
        assert media[1..][i] == media[i + 1];
      }
      RunAllPresent(directory, media[1..], fs, fetch, digest);
    }
  }

  /** Running again on the files a completed run left behind fetches nothing and
      changes nothing. */
  lemma RerunIsNoOp(directory: string, media: seq<Download>, fs: FileSystem,
                    fetch: string -> Bytes, digest: Bytes -> string)
    requires Run(directory, media, fs, fetch, digest).result.Done?
    ensures var files := Run(directory, media, fs, fetch, digest).result.files;
            Run(directory, media, files, fetch, digest) == Trace(Done(files), [], SumSizes(media))
  {
    var files := Run(directory, media, fs, fetch, digest).result.files;
    RunDoneComplete(directory, media, fs, fetch, digest);
    RunAllPresent(directory, media, files, fetch, digest);
  }

  /** The run stopped at item `k`: the items before it completed, the files are exactly
      what they left, item `k`'s digest differs from its hash and its destination was
      not written, and the URL of item `k` was the last one fetched. */
  predicate AbortedAt(directory: string, media: seq<Download>, fs: FileSystem,
                      fetch: string -> Bytes, digest: Bytes -> string, k: int)
  {
    && 0 <= k < |media|
    && var before := Run(directory, media[..k], fs, fetch, digest);
    && var t := Run(directory, media, fs, fetch, digest);
    && before.result.Done?
    && t.result == Aborted(media[k].id, media[k].hash, digest(fetch(media[k].url)), before.result.files)
    && media[k].hash != digest(fetch(media[k].url))
    && Target(directory, media[k]) !in t.result.files
    && t.fetched == before.fetched + [media[k].url]
  }

  /** A run that aborts does so at one item, with the consequences `AbortedAt` lists. */
  lemma {:induction false} RunAbortedAt(directory: string, media: seq<Download>, fs: FileSystem,
                                        fetch: string -> Bytes, digest: Bytes -> string)
    requires Run(directory, media, fs, fetch, digest).result.Aborted?
    ensures exists k :: AbortedAt(directory, media, fs, fetch, digest, k)
    decreases |media|
  {
    var s := Step(directory, media[0], fs, fetch, digest);
    RunFrom(directory, media, 0, fs, fetch, digest);
    assert media[0..] == media;
    if s.Mismatch? {
      assert media[..0] == [];
      assert AbortedAt(directory, media, fs, fetch, digest, 0);
    } else {
      var rest, fs' := media[1..], After(fs, s);
      RunAbortedAt(directory, rest, fs', fetch, digest);
      var k :| AbortedAt(directory, rest, fs', fetch, digest, k);
      AbortedOneLater(directory, media, fs, fetch, digest, k);
    }
  }

  /** The inductive step of `RunAbortedAt`: the first item passed and the tail
      aborted at `k`, so the whole list aborted at `k + 1`. */
  lemma AbortedOneLater(directory: string, media: seq<Download>, fs: FileSystem,
                        fetch: string -> Bytes, digest: Bytes -> string, k: int)
    requires |media| > 0 && !Step(directory, media[0], fs, fetch, digest).Mismatch?
    requires AbortedAt(directory, media[1..], After(fs, Step(directory, media[0], fs, fetch, digest)), fetch, digest, k)
    ensures AbortedAt(directory, media, fs, fetch, digest, k + 1)
  {
    var s := Step(directory, media[0], fs, fetch, digest);
    var rest, fs' := media[1..], After(fs, s);
    var before', t' := Run(directory, rest[..k], fs', fetch, digest), Run(directory, rest, fs', fetch, digest);
    var head := if s.Written? then [media[0].url] else [];
    RunFrom(directory, media, 0, fs, fetch, digest);
    assert media[0..] == media;
    assert Run(directory, media, fs, fetch, digest) == Extend(media[0], s, t');
    var pre := media[..k + 1];
    RunFrom(directory, pre, 0, fs, fetch, digest);
    assert pre[0..] == pre && pre[0] == media[0] && pre[1..] == rest[..k];
    assert Run(directory, pre, fs, fetch, digest) == Extend(media[0], s, before');
    assert rest[k] == media[k + 1];
    ConcatAssoc(head, before'.fetched, [media[k + 1].url]);
  }
}
