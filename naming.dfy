/** File names of the log manager: the name of a new capture file, the path
    of a record's file, the sidecar marker that flags an uploaded log, the
    record name taken from a path, and the default upload address. */
module Naming {

  const UlogExtension: string := ".ulg"
  const SidecarExtension: string := ".uploaded"
  /** Used whenever the configured upload address is empty (source line 30). */
  const DefaultUploadURL: string := "http://logs.px4.io/upload"

  // ---------------------------------------------------------------------
  // Zero-padded decimals (printf's %0Nd, QDateTime's yyyy, MM, zzz, ...)

  function Pow10(n: nat): nat
  {
    if n == 0 then 1 else 10 * Pow10(n - 1)
  }

  predicate IsDigit(c: char) {
    '0' <= c <= '9'
  }

  /** `n` written with exactly `width` decimal digits, leading zeros first. */
  function Decimal(n: nat, width: nat): (r: string)
    requires n < Pow10(width)
    ensures |r| == width && Digits(r)
  {
    if width == 0 then ""
    else
      assert n / 10 < Pow10(width - 1);
      Decimal(n / 10, width - 1) + [('0' as int + n % 10) as char]
  }

  predicate Digits(s: string) {
    forall i :: 0 <= i < |s| ==> IsDigit(s[i])
  }

  /** The number a string of decimal digits denotes. */
  function DecimalValue(s: string): nat
    requires Digits(s)
  {
    if s == [] then 0
    else
      assert IsDigit(s[|s| - 1]);
      DecimalValue(s[..|s| - 1]) * 10 + (s[|s| - 1] as int - '0' as int)
  }

  /** Round trip: reading back a padded decimal gives the number. */
  lemma {:induction false} DecimalRoundTrip(n: nat, width: nat)
    requires n < Pow10(width)
    ensures DecimalValue(Decimal(n, width)) == n
  {
    if width > 0 {
      assert n / 10 < Pow10(width - 1);
      var d := Decimal(n, width);
      assert d[..|d| - 1] == Decimal(n / 10, width - 1);
      DecimalRoundTrip(n / 10, width - 1);
    }
  }

  // ---------------------------------------------------------------------
  // Names of new capture files (source lines 145-151)

  /** The local time of the capture start, as QDateTime supplies it. */
  datatype DateTime = DateTime(year: int, month: int, day: int,
                               hour: int, minute: int, second: int, msec: int)

  predicate ValidDateTime(t: DateTime) {
    && 0 <= t.year <= 9999 && 1 <= t.month <= 12 && 1 <= t.day <= 31
    && 0 <= t.hour < 24 && 0 <= t.minute < 60 && 0 <= t.second < 60
    && 0 <= t.msec < 1000
  }

  /** The time in the format "yyyy-MM-dd-hh-mm-ss-zzz": seven groups of
      digits, each reading back as its field of t, joined by dashes. */
  function Stamp(t: DateTime): (r: string)
    requires ValidDateTime(t)
    ensures |r| == 23 && Dashed(r)
    ensures r[4] == '-' && r[7] == '-' && r[10] == '-' && r[13] == '-' && r[16] == '-' && r[19] == '-'
    ensures Digits(r[..4]) && DecimalValue(r[..4]) == t.year
    ensures Digits(r[5..7]) && DecimalValue(r[5..7]) == t.month
    ensures Digits(r[8..10]) && DecimalValue(r[8..10]) == t.day
    ensures Digits(r[11..13]) && DecimalValue(r[11..13]) == t.hour
    ensures Digits(r[14..16]) && DecimalValue(r[14..16]) == t.minute
    ensures Digits(r[17..19]) && DecimalValue(r[17..19]) == t.second
    ensures Digits(r[20..]) && DecimalValue(r[20..]) == t.msec
  {
    var y, mo, d := Decimal(t.year, 4), Decimal(t.month, 2), Decimal(t.day, 2);
    var h, mi, se := Decimal(t.hour, 2), Decimal(t.minute, 2), Decimal(t.second, 2);
    var ms := Decimal(t.msec, 3);
    DecimalRoundTrip(t.year, 4);
    DecimalRoundTrip(t.month, 2);
    DecimalRoundTrip(t.day, 2);
    DecimalRoundTrip(t.hour, 2);
    DecimalRoundTrip(t.minute, 2);
    DecimalRoundTrip(t.second, 2);
    DecimalRoundTrip(t.msec, 3);
    StampLayout(y, mo, d, h, mi, se, ms);
    y + "-" + mo + "-" + d + "-" + h + "-" + mi + "-" + se + "-" + ms
  }

  /** Strings made of digits and dashes only. */
  predicate Dashed(s: string) {
    forall i :: 0 <= i < |s| ==> IsDigit(s[i]) || s[i] == '-'
  }

  /** Where each group of the stamp sits once the groups are joined. */
  lemma StampLayout(y: string, mo: string, d: string, h: string, mi: string, se: string, ms: string)
    requires |y| == 4 && |mo| == 2 && |d| == 2 && |h| == 2 && |mi| == 2 && |se| == 2 && |ms| == 3
    requires Digits(y) && Digits(mo) && Digits(d) && Digits(h) && Digits(mi) && Digits(se) && Digits(ms)
    ensures var r := y + "-" + mo + "-" + d + "-" + h + "-" + mi + "-" + se + "-" + ms;
            && |r| == 23 && Dashed(r)
            && r[4] == '-' && r[7] == '-' && r[10] == '-' && r[13] == '-' && r[16] == '-' && r[19] == '-'
            && r[..4] == y && r[5..7] == mo && r[8..10] == d && r[11..13] == h
            && r[14..16] == mi && r[17..19] == se && r[20..] == ms
  {
    var r := y + "-" + mo + "-" + d + "-" + h + "-" + mi + "-" + se + "-" + ms;
    assert r[..4] == y && r[5..7] == mo && r[8..10] == d && r[11..13] == h;
    assert r[14..16] == mi && r[17..19] == se && r[20..] == ms;
    forall i | 0 <= i < |r|
      ensures IsDigit(r[i]) || r[i] == '-'
    {
      if i < 4 { assert r[i] == y[i]; }
      else if 4 < i < 7 { assert r[i] == mo[i - 5]; }
      else if 7 < i < 10 { assert r[i] == d[i - 8]; }
      else if 10 < i < 13 { assert r[i] == h[i - 11]; }
      else if 13 < i < 16 { assert r[i] == mi[i - 14]; }
      else if 16 < i < 19 { assert r[i] == se[i - 17]; }
      else if 19 < i { assert r[i] == ms[i - 20]; }
    }
  }

  /** The record name of a new capture: "%03d-<stamp>" of the vehicle id,
      that is three digits reading back as the id, a dash, and the stamp. */
  function LogBaseName(id: int, t: DateTime): (r: string)
    requires 0 <= id < 256 && ValidDateTime(t)
    ensures |r| == 27 && r[3] == '-' && r[4..] == Stamp(t)
    ensures Digits(r[..3]) && DecimalValue(r[..3]) == id
  {
    assert id < Pow10(3);
    DecimalRoundTrip(id, 3);
    var r := Decimal(id, 3) + "-" + Stamp(t);
    assert r[..3] == Decimal(id, 3) && r[4..] == Stamp(t);
    r
  }

  /** The path of a new capture file: "<dir>/%03d-<stamp>.ulg". */
  function LogFilePath(dir: string, id: int, t: DateTime): (r: string)
    requires 0 <= id < 256 && ValidDateTime(t)
    ensures |r| == |dir| + 32 && r[..|dir|] == dir && r[|dir|] == '/'
    ensures r[|r| - |UlogExtension|..] == UlogExtension
  {
    dir + "/" + LogBaseName(id, t) + UlogExtension
  }

  /** Source lines 892-898: the path of the file behind a record name. */
  function MakeFilename(dir: string, baseName: string): (r: string)
    ensures |r| == |dir| + 1 + |baseName| + |UlogExtension|
    ensures r[..|dir|] == dir && r[|dir|] == '/'
    ensures r[|dir| + 1..|dir| + 1 + |baseName|] == baseName
    ensures r[|r| - |UlogExtension|..] == UlogExtension
  {
    var r := dir + "/" + baseName + UlogExtension;
    assert r[|dir| + 1..|dir| + 1 + |baseName|] == baseName;
    r
  }

  // ---------------------------------------------------------------------
  // QFileInfo::baseName: the file name up to its first '.'

  /** The part of a path after its last '/': a suffix with no '/' in it
      that is either the whole path or preceded by a '/'. */
  function FileName(path: string): (r: string)
    ensures Free(r, '/') && |r| <= |path| && r == path[|path| - |r|..]
    ensures |r| == |path| || path[|path| - |r| - 1] == '/'
  {
    if path == [] then []
    else if path[|path| - 1] == '/' then []
    else FileName(path[..|path| - 1]) + [path[|path| - 1]]
  }

  /** The part of a file name before its first '.': a prefix with no '.'
      in it that is either the whole name or followed by a '.'. */
  function UpToDot(s: string): (r: string)
    ensures Free(r, '.') && r <= s
    ensures r == s || s[|r|] == '.'
  {
    if s == [] then []
    else if s[0] == '.' then []
    else [s[0]] + UpToDot(s[1..])
  }

  /** The file name of a path up to its first '.', with no '/' or '.'
      left in it. */
  function BaseName(path: string): (r: string)
    ensures Free(r, '.') && Free(r, '/')
    ensures var f := FileName(path); r <= f && (r == f || f[|r|] == '.')
  {
    UpToDot(FileName(path))
  }

  predicate Free(s: string, c: char) {
    forall i :: 0 <= i < |s| ==> s[i] != c
  }

  lemma {:induction false} FileNameAfterSlash(dir: string, t: string)
    requires Free(t, '/')
    ensures FileName(dir + "/" + t) == t
  {
    if t == [] {
    } else {
      var p := dir + "/" + t;
      assert p[..|p| - 1] == dir + "/" + t[..|t| - 1];
      FileNameAfterSlash(dir, t[..|t| - 1]);
    }
  }

  lemma {:induction false} UpToDotBefore(b: string, ext: string)
    requires Free(b, '.') && ext != [] && ext[0] == '.'
    ensures UpToDot(b + ext) == b
  {
    if b != [] {
      assert (b + ext)[1..] == b[1..] + ext;
      UpToDotBefore(b[1..], ext);
    }
  }

  /** A new capture's record is named after its file (source lines 48 and
      147-151): the base name of the created path is "%03d-<stamp>", and
      the path the manager rebuilds from that name is the created path. */
  lemma {:induction false} NewLogName(dir: string, id: int, t: DateTime)
    requires 0 <= id < 256 && ValidDateTime(t)
    ensures BaseName(LogFilePath(dir, id, t)) == LogBaseName(id, t)
    ensures MakeFilename(dir, LogBaseName(id, t)) == LogFilePath(dir, id, t)
  {
    var b := LogBaseName(id, t);
    forall i | 0 <= i < |b|
      ensures IsDigit(b[i]) || b[i] == '-'
    {
    }
    assert Free(b + UlogExtension, '/') by {
      forall i | 0 <= i < |b + UlogExtension|
        ensures (b + UlogExtension)[i] != '/'
      {
        if i >= |b| {
          assert (b + UlogExtension)[i] == UlogExtension[i - |b|];
        }
      }
    }
    assert LogFilePath(dir, id, t) == dir + "/" + (b + UlogExtension);
    FileNameAfterSlash(dir, b + UlogExtension);
    UpToDotBefore(b, UlogExtension);
  }

  // ---------------------------------------------------------------------
  // Sidecar markers (QString::replace, source lines 52, 509 and 706)

  /** Every occurrence of `pat`, scanning left to right, replaced by `rep`. */
  function ReplaceAll(s: string, pat: string, rep: string): (r: string)
    requires pat != []
    ensures Free(s, pat[0]) ==> r == s
    decreases |s|
  {
    if |s| < |pat| then s
    else if s[..|pat|] == pat then rep + ReplaceAll(s[|pat|..], pat, rep)
    else [s[0]] + ReplaceAll(s[1..], pat, rep)
  }

  /** The path of the sidecar marker of a log file. */
  function SidecarPath(path: string): (r: string)
    ensures Free(path, '.') ==> r == path
  {
    ReplaceAll(path, UlogExtension, SidecarExtension)
  }

  /** `pat` occurs in `s` at index i. */
  predicate OccursAt(s: string, pat: string, i: int) {
    0 <= i && i + |pat| <= |s| && s[i..i + |pat|] == pat
  }

  /** `pat` does not occur anywhere in `s`. */
  predicate Absent(s: string, pat: string) {
    forall i :: 0 <= i <= |s| ==> !OccursAt(s, pat, i)
  }

  /** The pattern does not start at the front of s + pat when s is a
      non-empty string free of it and the pattern's first character does
      not recur in it. */
  lemma NotAtFront(s: string, pat: string)
    requires pat != [] && Free(pat[1..], pat[0])
    requires s != [] && Absent(s, pat)
    ensures (s + pat)[..|pat|] != pat
  {
    var t := s + pat;
    if |s| >= |pat| {
      assert t[..|pat|] == s[0..0 + |pat|];
      assert !OccursAt(s, pat, 0);
    } else {
      assert t[..|pat|][|s|] == pat[0];
      assert pat[1..][|s| - 1] == pat[|s|];
    }
  }

  lemma AbsentTail(s: string, pat: string)
    requires s != [] && Absent(s, pat)
    ensures Absent(s[1..], pat)
  {
    forall i | 0 <= i <= |s[1..]|
      ensures !OccursAt(s[1..], pat, i)
    {
      if i + |pat| <= |s[1..]| {
        assert s[1..][i..i + |pat|] == s[i + 1..i + 1 + |pat|];
        assert !OccursAt(s, pat, i + 1);
      }
    }
  }

  /** A pattern whose first character does not occur again in it cannot
      straddle the end of a string that does not contain it, so appending
      the pattern once makes exactly one occurrence. */
  lemma {:induction false} ReplaceSuffix(s: string, pat: string, rep: string)
    requires pat != [] && Free(pat[1..], pat[0])
    requires Absent(s, pat)
    ensures ReplaceAll(s + pat, pat, rep) == s + rep
    decreases |s|
  {
    var t := s + pat;
    if s == [] {
      assert t == pat && t[|pat|..] == [];
    } else {
      NotAtFront(s, pat);
      AbsentTail(s, pat);
      assert t[1..] == s[1..] + pat;
      assert ReplaceAll(t, pat, rep) == [t[0]] + ReplaceAll(t[1..], pat, rep);
      ReplaceSuffix(s[1..], pat, rep);
      assert [s[0]] + (s[1..] + rep) == s + rep;
    }
  }

  /** The sidecar of a record's file sits beside it with ".uploaded" in
      place of ".ulg", provided ".ulg" occurs nowhere else in the path. */
  lemma SidecarBesideLog(dir: string, baseName: string)
    requires Absent(dir + "/" + baseName, UlogExtension)
    ensures SidecarPath(MakeFilename(dir, baseName)) == dir + "/" + baseName + SidecarExtension
  {
    assert Free(UlogExtension[1..], UlogExtension[0]);
    assert MakeFilename(dir, baseName) == (dir + "/" + baseName) + UlogExtension;
    ReplaceSuffix(dir + "/" + baseName, UlogExtension, SidecarExtension);
  }

  // ---------------------------------------------------------------------
  // Upload address (source lines 377-386)

  /** The address the setter stores: the default when given an empty one. */
  function EffectiveURL(url: string): (r: string)
    ensures r != []
    ensures url != [] ==> r == url
    ensures url == [] ==> r == DefaultUploadURL
  {
    if url == [] then DefaultUploadURL else url
  }
}
