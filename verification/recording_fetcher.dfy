/**
 * How `RecordingFetcher` turns a recording's file name into the address of
 * the recording on the sensor server: `/` becomes `_`, the name is split at
 * `_` into sensor and file id, and the file id at `.` into recording name
 * and extension.
 */
module RecordingFetcher {
  import opened Common

  /** The base address of the sensor server. */
  const Server: string := "http://sensor.mquter.qut.edu.au/sensors"

  // ---------------------------------------------------------------------------
  // String primitives: `Replace(char, char)` and `Split(char)`

  /** `s` holds no `c`. */
  predicate Free(s: string, c: char)
  {
    forall j :: 0 <= j < |s| ==> s[j] != c
  }

  /** `s.Replace(from, to)`: every `from` becomes `to`, nothing else changes. */
  function Replace(s: string, from: char, to: char): (r: string)
    ensures |r| == |s|
  {
    seq(|s|, i requires 0 <= i < |s| => if s[i] == from then to else s[i])
  }

  /** After the replacement no `from` is left, and a text without `from` is unchanged. */
  lemma ReplaceMeaning(s: string, from: char, to: char)
    ensures from != to ==> Free(Replace(s, from, to), from)
    ensures Free(s, from) ==> Replace(s, from, to) == s
  {
  }

  lemma ReplaceConcat(a: string, b: string, from: char, to: char)
    ensures Replace(a + b, from, to) == Replace(a, from, to) + Replace(b, from, to)
  {
    var r := Replace(a + b, from, to);
    var t := Replace(a, from, to) + Replace(b, from, to);
    assert |r| == |t|;
    forall i | 0 <= i < |r|
      ensures r[i] == t[i]
    {
      if i < |a| {
        assert (a + b)[i] == a[i];
      } else {
        assert (a + b)[i] == b[i - |a|];
      }
    }
  }

  /** The position of the first `c` in `s` at or after `k`, if any. */
  function IndexFrom(s: string, c: char, k: nat): (r: Option<nat>)
    requires k <= |s|
    ensures r.Some? ==> k <= r.value < |s|
    decreases |s| - k
  {
    if k == |s| then None
    else if s[k] == c then Some(k)
    else IndexFrom(s, c, k + 1)
  }

  /** The position found holds `c` and nothing before it does; no position means no `c` from `k` on. */
  lemma {:induction false} IndexFromMeaning(s: string, c: char, k: nat)
    requires k <= |s|
    ensures var r := IndexFrom(s, c, k);
      (r.Some? ==> s[r.value] == c && Free(s[k..r.value], c)) && (r.None? ==> Free(s[k..], c))
    decreases |s| - k
  {
    if k < |s| && s[k] != c {
      IndexFromMeaning(s, c, k + 1);
      var r := IndexFrom(s, c, k + 1);
      var e := if r.Some? then r.value else |s|;
      assert s[k..e] == [s[k]] + s[k + 1..e];
    }
  }

  /** Positions without `c` do not change where the search stops. */
  lemma {:induction false} IndexFromSkip(s: string, c: char, k: nat, m: nat)
    requires k <= m <= |s|
    requires forall j :: k <= j < m ==> s[j] != c
    ensures IndexFrom(s, c, k) == IndexFrom(s, c, m)
    decreases m - k
  {
    if k < m {
      IndexFromSkip(s, c, k + 1, m);
    }
  }

  /** Searching a text from `off + k`, where its suffix from `off` is `b`, finds what searching `b` from `k` finds, shifted by `off`. */
  lemma {:induction false} IndexFromShift(s: string, b: string, off: nat, c: char, k: nat)
    requires off + |b| == |s| && s[off..] == b && k <= |b|
    ensures IndexFrom(s, c, off + k) == match IndexFrom(b, c, k) case None => None case Some(i) => Some(off + i)
    decreases |b| - k
  {
    if k < |b| {
      assert s[off + k] == b[k];
      if b[k] != c {
        IndexFromShift(s, b, off, c, k + 1);
      }
    }
  }

  /** The pieces of `s` from position `k` on. */
  function SplitFrom(s: string, c: char, k: nat): (parts: seq<string>)
    requires k <= |s|
    ensures |parts| >= 1
    decreases |s| - k
  {
    match IndexFrom(s, c, k)
    case None => [s[k..]]
    case Some(i) => [s[k..i]] + SplitFrom(s, c, i + 1)
  }

  /**
   * `s.Split(c)`: the pieces between the separators, empty ones included,
   * so a string with no `c` is a single piece.
   */
  function Split(s: string, c: char): (parts: seq<string>)
    ensures |parts| >= 1
  {
    SplitFrom(s, c, 0)
  }

  /**
   * The first piece from `k` on runs up to the next separator, or to the
   * end; there is another piece exactly when a separator follows, and the
   * remaining pieces are those after it.
   */
  lemma PieceAt(s: string, c: char, k: nat)
    requires k <= |s|
    ensures var parts := SplitFrom(s, c, k);
      var e := k + |parts[0]|;
      e <= |s| && parts[0] == s[k..e] && Free(parts[0], c) &&
      (|parts| >= 2 <==> e < |s|) &&
      (e < |s| ==> s[e] == c && parts[1..] == SplitFrom(s, c, e + 1))
  {
    IndexFromMeaning(s, c, k);
    var r := IndexFrom(s, c, k);
    if r.None? {
      SplitFromLast(s, c, k);
    } else {
      SplitFromNext(s, c, k, r.value);
      assert SplitFrom(s, c, k)[1..] == SplitFrom(s, c, r.value + 1);
    }
  }

  /** Splitting a text from `off + k`, where its suffix from `off` is `b`, gives the pieces of `b` from `k`. */
  lemma {:induction false} SplitFromShift(s: string, b: string, off: nat, c: char, k: nat)
    requires off + |b| == |s| && s[off..] == b && k <= |b|
    ensures SplitFrom(s, c, off + k) == SplitFrom(b, c, k)
    decreases |b| - k
  {
    var r := IndexFrom(b, c, k);
    if r.None? {
      ShiftLastPiece(s, b, off, c, k);
    } else {
      SplitFromShift(s, b, off, c, r.value + 1);
      ShiftNextPiece(s, b, off, c, k, r.value);
    }
  }

  /** The shifted split when no separator follows: one piece on both sides. */
  lemma ShiftLastPiece(s: string, b: string, off: nat, c: char, k: nat)
    requires off + |b| == |s| && s[off..] == b && k <= |b| && IndexFrom(b, c, k).None?
    ensures SplitFrom(s, c, off + k) == SplitFrom(b, c, k)
  {
    IndexFromShift(s, b, off, c, k);
    SliceOfSuffix(s, b, off, k, |b|);
    SplitFromLast(b, c, k);
    SplitFromLast(s, c, off + k);
  }

  /** The shifted split when a separator follows at `i`: the same first piece, then the same later pieces. */
  lemma ShiftNextPiece(s: string, b: string, off: nat, c: char, k: nat, i: nat)
    requires off + |b| == |s| && s[off..] == b && k <= |b| && IndexFrom(b, c, k) == Some(i)
    requires SplitFrom(s, c, off + i + 1) == SplitFrom(b, c, i + 1)
    ensures SplitFrom(s, c, off + k) == SplitFrom(b, c, k)
  {
    IndexFromShift(s, b, off, c, k);
    SliceOfSuffix(s, b, off, k, i);
    SplitFromNext(b, c, k, i);
    SplitFromNext(s, c, off + k, off + i);
  }

  /** With no separator from `k` on, the rest of the text is the last piece. */
  lemma SplitFromLast(s: string, c: char, k: nat)
    requires k <= |s| && IndexFrom(s, c, k).None?
    ensures SplitFrom(s, c, k) == [s[k..]]
  {
  }

  /** A separator at `i` ends the piece starting at `k`; the pieces after it start at `i + 1`. */
  lemma SplitFromNext(s: string, c: char, k: nat, i: nat)
    requires k <= |s| && IndexFrom(s, c, k) == Some(i)
    ensures SplitFrom(s, c, k) == [s[k..i]] + SplitFrom(s, c, i + 1)
  {
  }

  /** A slice of a text that lies within its suffix `b`. */
  lemma SliceOfSuffix(s: string, b: string, off: nat, k: int, i: int)
    requires off + |b| == |s| && s[off..] == b && 0 <= k <= i <= |b|
    ensures s[off + k..off + i] == b[k..i] && s[off + k..] == b[k..]
  {
    assert forall j :: off <= j < |s| ==> s[j] == b[j - off] by {
      forall j | off <= j < |s|
        ensures s[j] == b[j - off]
      {
        assert s[off..][j - off] == s[j];
      }
    }
    assert s[off + k..off + i] == b[k..i];
    assert s[off + k..] == b[k..];
  }

  /** A prefix without the separator joins the first piece and leaves the others alone. */
  lemma SplitPrefix(a: string, b: string, c: char)
    requires Free(a, c)
    ensures Split(a + b, c) == [a + Split(b, c)[0]] + Split(b, c)[1..]
  {
    IndexFromSkip(a + b, c, 0, |a|);
    assert (a + b)[|a|..] == b;
    IndexFromShift(a + b, b, |a|, c, 0);
    match IndexFrom(b, c, 0)
    case None =>
      assert (a + b)[0..] == a + b[0..];
    case Some(i) =>
      assert (a + b)[0..|a| + i] == a + b[0..i];
      SplitFromShift(a + b, b, |a|, c, i + 1);
      assert Split(b, c)[1..] == SplitFrom(b, c, i + 1);
  }

  /** Text up to the first separator is the first piece. */
  lemma SplitAtSeparator(a: string, b: string, c: char)
    requires Free(a, c)
    ensures Split(a + [c] + b, c) == [a] + Split(b, c)
  {
    var s := a + [c] + b;
    IndexFromSkip(s, c, 0, |a|);
    assert s[|a|] == c;
    assert s[0..|a|] == a;
    assert s[|a + [c]|..] == b;
    SplitFromShift(s, b, |a + [c]|, c, 0);
  }

  // ---------------------------------------------------------------------------
  // ParseFilename and ConvertToUri

  /** The three parts of a recording's file name. */
  datatype FileName = FileName(sensor: string, recording: string, extension: string)

  /**
   * `ParseFilename`: the sensor is the first `_`-piece, the file id the
   * second (later pieces are ignored); the recording name is the file id's
   * first `.`-piece and the extension its second. A name without `_` (or
   * `/`), or a file id without `.`, indexes past the pieces.
   */
  function ParseFilename(filename: string): (r: Outcome<FileName>)
    ensures r.Fail? ==> r.fault == IndexOutOfRange
  {
    var parts := Split(Replace(filename, '/', '_'), '_');
    if |parts| < 2 then Fail(IndexOutOfRange)
    else
      var parts2 := Split(parts[1], '.');
      if |parts2| < 2 then Fail(IndexOutOfRange)
      else Ok(FileName(parts[0], parts2[0], parts2[1]))
  }

  /** The file name a sensor's recording is stored under, with `_` and `.` between the parts. */
  function Compose(n: FileName): string
  {
    n.sensor + "_" + n.recording + "." + n.extension
  }

  /** None of the three parts contains a separator the parser splits at. */
  predicate Plain(n: FileName)
  {
    Free(n.sensor, '_') && Free(n.sensor, '/') &&
    Free(n.recording, '_') && Free(n.recording, '/') && Free(n.recording, '.') &&
    Free(n.extension, '_') && Free(n.extension, '/') && Free(n.extension, '.')
  }

  /** A name with neither `_` nor `/` has a single piece, so the file id is missing. */
  lemma ParseFilenameNoSeparator(filename: string)
    requires Free(filename, '_') && Free(filename, '/')
    ensures ParseFilename(filename) == Fail(IndexOutOfRange)
  {
    ReplaceMeaning(filename, '/', '_');
    PieceAt(filename, '_', 0);
    assert filename[0..|filename|] == filename;
  }

  /**
   * The first two pieces and the separator between them start the text,
   * followed by its end or another separator.
   */
  lemma TwoPieces(s: string, c: char)
    requires |Split(s, c)| >= 2
    ensures var p0 := Split(s, c)[0];
      var p1 := Split(s, c)[1];
      var k := |p0| + 1 + |p1|;
      k <= |s| && s[..k] == p0 + [c] + p1 && Free(p0, c) && Free(p1, c) && (k == |s| || s[k] == c)
  {
    var parts := Split(s, c);
    var p0 := parts[0];
    var e0 := |p0|;
    assert e0 < |s| && p0 == s[0..e0] && s[e0] == c && Free(p0, c) && parts[1..] == SplitFrom(s, c, e0 + 1) by {
      PieceAt(s, c, 0);
    }
    var rest := SplitFrom(s, c, e0 + 1);
    var p1 := rest[0];
    var k := e0 + 1 + |p1|;
    assert k <= |s| && p1 == s[e0 + 1..k] && Free(p1, c) && (k == |s| || s[k] == c) by {
      PieceAt(s, c, e0 + 1);
    }
    assert parts[1] == p1 by {
      assert parts[1] == parts[1..][0];
    }
    JoinAround(s, e0, k);
  }

  /** A prefix of `s` is the text before position `e`, the character at `e`, and the text after it. */
  lemma JoinAround(s: string, e: int, k: int)
    requires 0 <= e < k <= |s|
    ensures s[..k] == s[0..e] + [s[e]] + s[e + 1..k]
  {
  }

  lemma FreeSlice(s: string, c: char, i: int, j: int)
    requires Free(s, c) && 0 <= i <= j <= |s|
    ensures Free(s[i..j], c)
  {
    assert forall k :: 0 <= k < j - i ==> s[i..j][k] == s[i + k];
  }

  lemma FreeConcat(a: string, b: string, c: char)
    requires Free(a + b, c)
    ensures Free(a, c) && Free(b, c)
  {
    assert a == (a + b)[..|a|];
    assert b == (a + b)[|a|..];
    FreeSlice(a + b, c, 0, |a|);
    FreeSlice(a + b, c, |a|, |a + b|);
  }

  /**
   * What a successful parse means: after `/` becomes `_`, the name starts
   * with sensor `_` recording `.` extension, followed by nothing, a `_` or a
   * `.`; the sensor has no `_` or `/`, the recording and the extension no
   * separator at all.
   */
  lemma ParseFilenameShape(filename: string)
    requires ParseFilename(filename).Ok?
    ensures var n := ParseFilename(filename).value;
      var f := Replace(filename, '/', '_');
      var t := Compose(n);
      Plain(n) && |t| <= |f| && f[..|t|] == t && (|t| == |f| || f[|t|] == '_' || f[|t|] == '.')
  {
    var f := Replace(filename, '/', '_');
    var sensor := Split(f, '_')[0];
    var id := Split(f, '_')[1];
    var k := |sensor| + 1 + |id|;
    assert k <= |f| && f[..k] == sensor + ['_'] + id && Free(sensor, '_') && Free(id, '_') && (k == |f| || f[k] == '_') by {
      TwoPieces(f, '_');
    }
    var recording := Split(id, '.')[0];
    var extension := Split(id, '.')[1];
    var m := |recording| + 1 + |extension|;
    assert m <= |id| && id[..m] == recording + ['.'] + extension && Free(recording, '.') && Free(extension, '.') &&
           (m == |id| || id[m] == '.') by {
      TwoPieces(id, '.');
    }
    var n := FileName(sensor, recording, extension);
    assert ParseFilename(filename).value == n;
    var t := Compose(n);
    assert t == sensor + ['_'] + id[..m] by {
      assert t == sensor + ['_'] + (recording + ['.'] + extension);
    }
    assert f[..|t|] == t && (m < |id| ==> f[|t|] == id[m]) by {
      PrefixOfPrefix(f, sensor + ['_'], id, m);
    }
    assert Free(sensor, '/') && Free(id, '/') by {
      ReplaceMeaning(filename, '/', '_');
      FreeSlice(f, '/', 0, k);
      FreeConcat(sensor + ['_'], id, '/');
      FreeConcat(sensor, ['_'], '/');
    }
    assert Plain(n) by {
      FreeSlice(id, '/', 0, m);
      FreeSlice(id, '_', 0, m);
      FreeConcat(recording + ['.'], extension, '/');
      FreeConcat(recording, ['.'], '/');
      FreeConcat(recording + ['.'], extension, '_');
      FreeConcat(recording, ['.'], '_');
    }
    if m == |id| && k < |f| {
      assert |t| == k;
    }
  }

  /** A prefix of `a + b` that reaches into `b`. */
  lemma PrefixOfPrefix(f: string, a: string, b: string, m: int)
    requires |a| + |b| <= |f| && f[..|a| + |b|] == a + b && 0 <= m <= |b|
    ensures f[..|a| + m] == a + b[..m] && (m < |b| ==> f[|a| + m] == b[m])
  {
    assert f[..|a| + m] == f[..|a| + |b|][..|a| + m];
    assert (a + b)[..|a| + m] == a + b[..m];
    if m < |b| {
      assert f[|a| + m] == f[..|a| + |b|][|a| + m];
    }
  }

  /** After `/` becomes `_`, a composed name reads sensor `_` file id, then the rest of the tail. */
  lemma ReplacedCompose(n: FileName, sep: char, tail: string)
    requires Plain(n) && (sep == '_' || sep == '/')
    ensures var id := n.recording + "." + n.extension;
      Replace(n.sensor + [sep] + n.recording + "." + n.extension + tail, '/', '_') ==
      n.sensor + ['_'] + (id + Replace(tail, '/', '_'))
  {
    var id := n.recording + "." + n.extension;
    assert n.sensor + [sep] + n.recording + "." + n.extension + tail == n.sensor + [sep] + (id + tail);
    ReplaceConcat(n.sensor + [sep], id + tail, '/', '_');
    ReplaceConcat(n.sensor, [sep], '/', '_');
    ReplaceConcat(id, tail, '/', '_');
    assert Replace([sep], '/', '_') == ['_'];
    assert Free(id, '/');
    ReplaceMeaning(n.sensor, '/', '_');
    ReplaceMeaning(id, '/', '_');
  }

  /** The first `_`-piece of a text starting with `_` or `.` is empty or starts with `.`. */
  lemma TailPiece(rt: string)
    requires rt == [] || rt[0] == '_' || rt[0] == '.'
    ensures var seg := Split(rt, '_')[0]; seg == [] || seg[0] == '.'
  {
    if rt != [] {
      if rt[0] == '_' {
        assert rt == [] + ['_'] + rt[1..];
        SplitAtSeparator([], rt[1..], '_');
      } else {
        assert rt == ['.'] + rt[1..];
        SplitPrefix(['.'], rt[1..], '_');
      }
    }
  }

  /** A file id made of a plain recording, `.`, a plain extension and more after a `.`. */
  lemma SplitFileId(recording: string, extension: string, seg: string)
    requires Free(recording, '.') && Free(extension, '.')
    requires seg == [] || seg[0] == '.'
    ensures var parts2 := Split(recording + ['.'] + (extension + seg), '.');
      |parts2| >= 2 && parts2[0] == recording && parts2[1] == extension
  {
    SplitAtSeparator(recording, extension + seg, '.');
    SplitPrefix(extension, seg, '.');
    if seg != [] {
      assert seg == [] + ['.'] + seg[1..];
      SplitAtSeparator([], seg[1..], '.');
    }
  }

  /**
   * The parse inverts `Compose`: a name built from plain parts, with `_` or
   * `/` after the sensor and anything after a following `_`, `/` or `.`,
   * parses back to those parts.
   */
  lemma ParseFilenameCompose(n: FileName, sep: char, tail: string)
    requires Plain(n)
    requires sep == '_' || sep == '/'
    requires tail == [] || tail[0] == '_' || tail[0] == '/' || tail[0] == '.'
    ensures ParseFilename(n.sensor + [sep] + n.recording + "." + n.extension + tail) == Ok(n)
  {
    var id := n.recording + "." + n.extension;
    var rt := Replace(tail, '/', '_');
    var f := n.sensor + ['_'] + (id + rt);
    assert Replace(n.sensor + [sep] + n.recording + "." + n.extension + tail, '/', '_') == f by {
      ReplacedCompose(n, sep, tail);
    }
    var seg := Split(rt, '_')[0];
    assert |Split(f, '_')| >= 2 && Split(f, '_')[0] == n.sensor && Split(f, '_')[1] == id + seg by {
      assert Free(id, '_');
      SplitAtSeparator(n.sensor, id + rt, '_');
      SplitPrefix(id, rt, '_');
    }
    assert |Split(id + seg, '.')| >= 2 && Split(id + seg, '.')[0] == n.recording && Split(id + seg, '.')[1] == n.extension by {
      TailPiece(rt);
      assert id + seg == n.recording + ['.'] + (n.extension + seg);
      SplitFileId(n.recording, n.extension, seg);
    }
  }

  /**
   * `ConvertToUri`: the server, then the sensor as a directory, then the
   * recording name with its extension.
   */
  function ConvertToUri(filename: string): (r: Outcome<string>)
    ensures r.Fail? <==> ParseFilename(filename).Fail?
  {
    match ParseFilename(filename)
    case Fail(f) => Fail(f)
    case Ok(n) => Ok(Server + "/" + n.sensor + "/" + n.recording + "." + n.extension)
  }

  /**
   * For a name built from plain parts, the address is the server followed
   * by the name with its `_` turned into `/`.
   */
  lemma ConvertToUriCompose(n: FileName)
    requires Plain(n)
    ensures ConvertToUri(Compose(n)) == Ok(Server + "/" + Replace(Compose(n), '_', '/'))
  {
    var t := Compose(n);
    assert ParseFilename(t) == Ok(n) by {
      ParseFilenameCompose(n, '_', []);
      assert t == n.sensor + ['_'] + n.recording + "." + n.extension + [];
    }
    var path := n.sensor + "/" + n.recording + "." + n.extension;
    assert Replace(t, '_', '/') == path by {
      ComposeWithSlashes(n);
    }
    assert Server + "/" + n.sensor + "/" + n.recording + "." + n.extension == Server + "/" + path;
  }

  /** Turning the `_` of a composed name into `/` gives the sensor as a directory. */
  lemma ComposeWithSlashes(n: FileName)
    requires Plain(n)
    ensures Replace(Compose(n), '_', '/') == n.sensor + "/" + n.recording + "." + n.extension
  {
    var dotExt := "." + n.extension;
    assert Replace(dotExt, '_', '/') == dotExt by {
      ReplaceConcat(".", n.extension, '_', '/');
      ReplaceMeaning(n.extension, '_', '/');
      assert Replace(".", '_', '/') == ".";
    }
    var rest := n.recording + dotExt;
    assert Replace(rest, '_', '/') == rest by {
      ReplaceConcat(n.recording, dotExt, '_', '/');
      ReplaceMeaning(n.recording, '_', '/');
    }
    var slashed := ['_'] + rest;
    assert Replace(slashed, '_', '/') == ['/'] + rest by {
      ReplaceConcat(['_'], rest, '_', '/');
      assert Replace(['_'], '_', '/') == ['/'];
    }
    assert Replace(n.sensor + slashed, '_', '/') == n.sensor + (['/'] + rest) by {
      ReplaceConcat(n.sensor, slashed, '_', '/');
      ReplaceMeaning(n.sensor, '_', '/');
    }
    assert Compose(n) == n.sensor + slashed;
    assert n.sensor + "/" + n.recording + "." + n.extension == n.sensor + (['/'] + rest);
  }
}
