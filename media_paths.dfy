/**
 * Where a media item is stored: `join(directory, "media", quality, name)`, with the
 * name taken as `url.split('/').slice(-1)[0]`. Joining is plain '/'-joining.
 */
module MediaPaths {

  /** The pieces joined with '/' between consecutive ones, as `Array.join('/')`. */
  function Join(parts: seq<string>): string
    decreases |parts|
  {
    if |parts| == 0 then ""
    else if |parts| == 1 then parts[0]
    else parts[0] + "/" + Join(parts[1..])
  }

  /** `s.split('/')`: the pieces between the separators. There is always at least one. */
  function Split(s: string): (parts: seq<string>)
    ensures |parts| >= 1
    decreases |s|
  {
    if |s| == 0 then [""]
    else
      var rest := Split(s[1..]);
      if s[0] == '/' then [""] + rest
      else [[s[0]] + rest[0]] + rest[1..]
  }

  /** No piece of the split contains a '/'. */
  lemma {:induction false} SplitPiecesSlashFree(s: string)
    ensures forall i :: 0 <= i < |Split(s)| ==> '/' !in Split(s)[i]
    decreases |s|
  {
    if |s| > 0 {
      SplitPiecesSlashFree(s[1..]);
      var rest := Split(s[1..]);
      if s[0] != '/' {
        assert '/' !in [s[0]] + rest[0];
      }
    }
  }

  /** Joining the pieces of the split with '/' gives back the input. */
  lemma {:induction false} JoinSplit(s: string)
    ensures Join(Split(s)) == s
    decreases |s|
  {
    if |s| > 0 {
      var rest := Split(s[1..]);
      JoinSplit(s[1..]);
      if s[0] == '/' {
        assert Join([""] + rest) == "" + "/" + Join(rest);
      } else {
        var head := [s[0]] + rest[0];
        if |rest| == 1 {
          assert Join([head] + rest[1..]) == [s[0]] + Join(rest) by {
            assert [head] + rest[1..] == [head];
          }
        } else {
          var tail := Join(rest[1..]);
          assert Join(rest) == rest[0] + "/" + tail;
          assert Join([head] + rest[1..]) == head + "/" + tail by {
            assert ([head] + rest[1..])[1..] == rest[1..];
          }
          ConcatAssoc4([s[0]], rest[0], "/", tail);
        }
      }
    }
  }

  lemma ConcatAssoc4(a: string, b: string, c: string, d: string)
    ensures a + b + c + d == a + (b + c + d)
  {
  }

  /** Splitting off the last piece of a join of two or more pieces. */
  lemma {:induction false} JoinLast(parts: seq<string>)
    requires |parts| >= 2
    ensures Join(parts) == Join(parts[..|parts| - 1]) + "/" + parts[|parts| - 1]
    decreases |parts|
  {
    if |parts| > 2 {
      JoinLast(parts[1..]);
      assert parts[1..][..|parts| - 2] == parts[1..|parts| - 1];
      assert parts[..|parts| - 1][1..] == parts[1..|parts| - 1];
    }
  }

  /** `t` is what follows the last '/' of `s`, or all of `s` when it has no '/'. */
  predicate IsLastSegment(t: string, s: string)
  {
    && '/' !in t
    && |t| <= |s|
    && s[|s| - |t|..] == t
    && (|t| == |s| || s[|s| - |t| - 1] == '/')
  }

  /** `s.split('/').slice(-1)[0]`. */
  function LastSegment(s: string): string
  {
    var parts := Split(s);
    parts[|parts| - 1]
  }

  /** The last piece of the split is the text after the last '/', or all of `s`. */
  lemma LastSegmentSpec(s: string)
    ensures IsLastSegment(LastSegment(s), s)
  {
    var parts := Split(s);
    var n := |parts|;
    SplitPiecesSlashFree(s);
    JoinSplit(s);
    assert '/' !in parts[n - 1];
    if n > 1 {
      JoinLast(parts);
      assert s == Join(parts[..n - 1]) + "/" + parts[n - 1];
    }
  }

  /** There is only one text after the last '/'. */
  lemma LastSegmentUnique(s: string, t: string)
    requires IsLastSegment(t, s)
    ensures t == LastSegment(s)
  {
    LastSegmentSpec(s);
  }

  /** `join(directory, 'media', quality, url.split('/').slice(-1)[0])`. */
  function Destination(directory: string, quality: string, url: string): string
  {
    Join([directory, "media", quality, LastSegment(url)])
  }

  /** The destination is the directory, "media", the quality and the URL's last
      segment, separated by '/', and its own last segment is the URL's. */
  lemma DestinationShape(directory: string, quality: string, url: string)
    ensures Destination(directory, quality, url) == directory + "/media/" + quality + "/" + LastSegment(url)
    ensures LastSegment(Destination(directory, quality, url)) == LastSegment(url)
  {
    var name := LastSegment(url);
    var path := Destination(directory, quality, url);
    LastSegmentSpec(url);
    assert [directory, "media", quality, name][1..] == ["media", quality, name];
    assert ["media", quality, name][1..] == [quality, name];
    assert [quality, name][1..] == [name];
    assert Join([quality, name]) == quality + "/" + name;
    assert Join(["media", quality, name]) == "media" + "/" + (quality + "/" + name);
    assert path == directory + "/" + ("media" + "/" + (quality + "/" + name));
    assert "/" + "media" + "/" == "/media/";
    assert path == directory + "/media/" + quality + "/" + name;
    LastSegmentUnique(path, name);
  }

  /** Within one directory, a destination path determines the quality and the file
      name it was built from. Items of the same quality whose URLs end in the same
      name therefore share one path. */
  lemma DestinationDetermines(directory: string, q1: string, url1: string, q2: string, url2: string)
    requires Destination(directory, q1, url1) == Destination(directory, q2, url2)
    ensures q1 == q2 && LastSegment(url1) == LastSegment(url2)
  {
    DestinationShape(directory, q1, url1);
    DestinationShape(directory, q2, url2);
    var p, name := Destination(directory, q1, url1), LastSegment(url1);
    var prefix := directory + "/media/";
    assert p[..|prefix|] == prefix;
    assert (prefix + q1 + "/" + name)[|prefix|..|prefix| + |q1|] == q1;
    assert (prefix + q2 + "/" + name)[|prefix|..|prefix| + |q2|] == q2;
  }
}
