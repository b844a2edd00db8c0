/** Key normalisation for the watcher and the preview cache
    (`FSWatcher.to_str` and `FSWatcher.get_nas_mapping` in utils.py).

    `to_str` resolves a path and, when the result starts with the remote path
    of a mapped network share, rewrites it to the share's local drive.
    `get_nas_mapping` builds the drive -> remote-path table from the text
    printed by Windows' `net use`. `Path.resolve` and the `net use` call are
    outside the model: the resolved string, the command's output and the
    resolving function are parameters. */
module PathNorm {
  import opened Wrappers

  // ---------------------------------------------------------------------------
  // The Python string operations used

  /** `str.isspace` for one character. */
  predicate IsSpace(c: char) {
    var n := c as int;
    n == 0x20 || 0x09 <= n <= 0x0D || 0x1C <= n <= 0x1F || n == 0x85 || n == 0xA0
    || n == 0x1680 || 0x2000 <= n <= 0x200A || n == 0x2028 || n == 0x2029
    || n == 0x202F || n == 0x205F || n == 0x3000
  }

  function StripLeft(s: string): (r: string)
    ensures r == [] || !IsSpace(r[0])
    ensures |r| <= |s| && r == s[|s| - |r|..]
    ensures forall k :: 0 <= k < |s| - |r| ==> IsSpace(s[k])
  {
    if s != [] && IsSpace(s[0]) then StripLeft(s[1..]) else s
  }

  function StripRight(s: string): (r: string)
    ensures r == [] || !IsSpace(r[|r| - 1])
    ensures |r| <= |s| && r == s[..|r|]
    ensures forall k :: |r| <= k < |s| ==> IsSpace(s[k])
  {
    if s != [] && IsSpace(s[|s| - 1]) then StripRight(s[..|s| - 1]) else s
  }

  /** `str.strip()`: the slice of `s` left once the white space at both ends
      is cut off; no white space is left at either end. */
  function Strip(s: string): (r: string)
    ensures r == [] || (!IsSpace(r[0]) && !IsSpace(r[|r| - 1]))
    ensures exists i, j ::
      (&& 0 <= i <= j <= |s| && r == s[i..j]
       && (forall k :: 0 <= k < i ==> IsSpace(s[k]))
       && (forall k :: j <= k < |s| ==> IsSpace(s[k])))
  {
    var l := StripLeft(s);
    var r := StripRight(l);
    var i := |s| - |l|;
    assert r == s[i..i + |r|];
    assert forall k :: i + |r| <= k < |s| ==> IsSpace(s[k]) by {
      forall k | i + |r| <= k < |s| ensures IsSpace(s[k]) {
        assert s[k] == l[k - i];
      }
    }
    r
  }

  /** `s.split(c)` for a one-character separator: the pieces between the
      separators, at least one piece. */
  function SplitOn(s: string, c: char): (r: seq<string>)
    ensures |r| >= 1
    ensures forall k :: 0 <= k < |r| ==> c !in r[k]
  {
    if s == [] then [[]]
    else
      var rest := SplitOn(s[1..], c);
      if s[0] == c then [[]] + rest
      else [[s[0]] + rest[0]] + rest[1..]
  }

  /** The inverse of `SplitOn`: `c.join(pieces)`. */
  function JoinWith(pieces: seq<string>, c: char): string
    requires |pieces| >= 1
  {
    if |pieces| == 1 then pieces[0] else pieces[0] + [c] + JoinWith(pieces[1..], c)
  }

  /** Splitting and joining again gives back the text. */
  lemma {:induction false} SplitJoin(s: string, c: char)
    ensures JoinWith(SplitOn(s, c), c) == s
  {
    if s != [] {
      SplitJoin(s[1..], c);
      var rest := SplitOn(s[1..], c);
      if s[0] == c {
        assert SplitOn(s, c)[1..] == rest;
      } else {
        var r := SplitOn(s, c);
        if |rest| == 1 {
          assert r == [[s[0]] + rest[0]];
        } else {
          assert r[1..] == rest[1..];
          assert JoinWith(r, c) == [s[0]] + rest[0] + [c] + JoinWith(rest[1..], c);
        }
      }
    }
  }

  /** Length of the run of non-space characters that starts `s`. */
  function WordLength(s: string): (n: nat)
    ensures n <= |s|
    ensures forall k :: 0 <= k < n ==> !IsSpace(s[k])
    ensures n < |s| ==> IsSpace(s[n])
  {
    if s == [] || IsSpace(s[0]) then 0 else 1 + WordLength(s[1..])
  }

  /** `str.split()` with no argument: the maximal runs of non-space characters. */
  function Words(s: string): (r: seq<string>)
    ensures forall k :: 0 <= k < |r| ==> r[k] != [] && forall j :: 0 <= j < |r[k]| ==> !IsSpace(r[k][j])
    decreases |s|
  {
    if s == [] then []
    else if IsSpace(s[0]) then Words(s[1..])
    else
      var n := WordLength(s);
      [s[..n]] + Words(s[n..])
  }

  /** The words one after the other, with nothing between them. */
  function Flatten(ws: seq<string>): string {
    if ws == [] then [] else ws[0] + Flatten(ws[1..])
  }

  /** `s` with every white-space character taken out. */
  function NonSpace(s: string): string {
    if s == [] then [] else (if IsSpace(s[0]) then [] else [s[0]]) + NonSpace(s[1..])
  }

  lemma {:induction false} NonSpaceAppend(a: string, b: string)
    ensures NonSpace(a + b) == NonSpace(a) + NonSpace(b)
    decreases |a|
  {
    if a == [] {
      assert a + b == b;
    } else {
      assert (a + b)[0] == a[0] && (a + b)[1..] == a[1..] + b;
      NonSpaceAppend(a[1..], b);
      var x := if IsSpace(a[0]) then [] else [a[0]];
      assert x + (NonSpace(a[1..]) + NonSpace(b)) == x + NonSpace(a[1..]) + NonSpace(b);
    }
  }

  lemma {:induction false} NonSpaceOfWord(w: string)
    requires forall j :: 0 <= j < |w| ==> !IsSpace(w[j])
    ensures NonSpace(w) == w
    decreases |w|
  {
    if w != [] {
      NonSpaceOfWord(w[1..]);
    }
  }

  /** `split()` loses only the white space: its words, put together, are the
      text with every white-space character removed. */
  lemma {:induction false} WordsCoverText(s: string)
    ensures Flatten(Words(s)) == NonSpace(s)
    decreases |s|
  {
    if s != [] {
      if IsSpace(s[0]) {
        WordsCoverText(s[1..]);
      } else {
        var n := WordLength(s);
        WordsCoverText(s[n..]);
        assert Words(s)[1..] == Words(s[n..]);
        assert s == s[..n] + s[n..];
        NonSpaceAppend(s[..n], s[n..]);
        NonSpaceOfWord(s[..n]);
      }
    }
  }

  /** The words laid out one after another, each followed by the run `sep`. */
  function Spaced(ws: seq<string>, sep: string): string {
    if ws == [] then [] else ws[0] + sep + Spaced(ws[1..], sep)
  }

  predicate IsWord(w: string) {
    w != [] && forall j :: 0 <= j < |w| ==> !IsSpace(w[j])
  }

  predicate AllSpace(sep: string) {
    forall j :: 0 <= j < |sep| ==> IsSpace(sep[j])
  }

  /** Leading white space does not change the words. */
  lemma {:induction false} WordsSkipSpace(sep: string, t: string)
    requires AllSpace(sep)
    ensures Words(sep + t) == Words(t)
    decreases |sep|
  {
    if sep == [] {
      assert sep + t == t;
    } else {
      assert (sep + t)[0] == sep[0] && IsSpace(sep[0]);
      assert (sep + t)[1..] == sep[1..] + t;
      assert AllSpace(sep[1..]) by {
        forall j | 0 <= j < |sep[1..]| ensures IsSpace(sep[1..][j]) {
          assert sep[1..][j] == sep[j + 1];
        }
      }
      WordsSkipSpace(sep[1..], t);
    }
  }

  /** The run of non-space characters that starts `w + rest` is `w` when
      `rest` starts with white space (or is empty). */
  lemma {:induction false} WordLengthOf(w: string, rest: string)
    requires forall j :: 0 <= j < |w| ==> !IsSpace(w[j])
    requires rest == [] || IsSpace(rest[0])
    ensures WordLength(w + rest) == |w|
    decreases |w|
  {
    if w != [] {
      assert (w + rest)[1..] == w[1..] + rest;
      WordLengthOf(w[1..], rest);
    }
  }

  /** The round trip: words separated by white-space runs split back into
      the same words. */
  lemma {:induction false} WordsOfSpaced(ws: seq<string>, sep: string)
    requires forall k :: 0 <= k < |ws| ==> IsWord(ws[k])
    requires sep != [] && AllSpace(sep)
    ensures Words(Spaced(ws, sep)) == ws
    decreases |ws|
  {
    if ws != [] {
      var w, rest := ws[0], Spaced(ws[1..], sep);
      assert IsWord(w);
      var s := w + (sep + rest);
      assert Spaced(ws, sep) == s;
      WordLengthOf(w, sep + rest);
      assert s[..|w|] == w && s[|w|..] == sep + rest;
      WordsSkipSpace(sep, rest);
      WordsOfSpaced(ws[1..], sep);
    }
  }

  /** Python's `s.replace(pat, rep)`: every non-overlapping occurrence, left to
      right; an empty `pat` inserts `rep` before every character and at the end. */
  function ReplaceAll(s: string, pat: string, rep: string): string
    decreases |s|
  {
    if pat == [] then Interleave(s, rep)
    else if |s| < |pat| then s
    else if s[..|pat|] == pat then rep + ReplaceAll(s[|pat|..], pat, rep)
    else [s[0]] + ReplaceAll(s[1..], pat, rep)
  }

  function Interleave(s: string, sep: string): string {
    if s == [] then sep else sep + [s[0]] + Interleave(s[1..], sep)
  }

  predicate IsPrefix(pre: string, s: string) {
    |pre| <= |s| && s[..|pre|] == pre
  }

  predicate OccursAt(s: string, pat: string, i: nat) {
    i + |pat| <= |s| && s[i..i + |pat|] == pat
  }

  /** A text in which the pattern does not occur comes back unchanged. */
  lemma {:induction false} ReplaceAllAbsent(s: string, pat: string, rep: string)
    requires pat != []
    requires forall i :: 0 <= i <= |s| ==> !OccursAt(s, pat, i)
    ensures ReplaceAll(s, pat, rep) == s
    decreases |s|
  {
    if |s| >= |pat| {
      assert !OccursAt(s, pat, 0);
      forall i | 0 <= i <= |s[1..]| ensures !OccursAt(s[1..], pat, i) {
        assert !OccursAt(s, pat, i + 1);
        if i + |pat| <= |s[1..]| {
          assert s[1..][i..i + |pat|] == s[i + 1..i + 1 + |pat|];
        }
      }
      ReplaceAllAbsent(s[1..], pat, rep);
    }
  }

  /** Replacing an absent non-empty pattern after a prefix occurrence rewrites exactly that prefix. */
  lemma ReplacePrefixOnly(s: string, pat: string, rep: string)
    requires pat != [] && IsPrefix(pat, s)
    requires forall i :: 0 <= i <= |s| - |pat| ==> !OccursAt(s[|pat|..], pat, i)
    ensures ReplaceAll(s, pat, rep) == rep + s[|pat|..]
  {
    ReplaceAllAbsent(s[|pat|..], pat, rep);
  }

  // ---------------------------------------------------------------------------
  // The NAS mapping table: a dict in insertion order

  /** An ordered dict drive -> remote path. */
  type NasMap = seq<(string, string)>

  /** No drive is listed twice: the keys of a dict. */
  predicate DistinctDrives(m: NasMap) {
    m == [] || (m[0].0 !in Drives(m[1..]) && DistinctDrives(m[1..]))
  }

  /** `d[key] = value`: an existing key keeps its place and gets the new value,
      a new key goes to the end. */
  function Assign(m: NasMap, key: string, value: string): (r: NasMap)
    ensures DistinctDrives(m) ==> DistinctDrives(r)
    ensures forall k :: k in Drives(r) <==> k in Drives(m) || k == key
    ensures Lookup(r, key) == Some(value)
    ensures forall k :: k != key ==> Lookup(r, k) == Lookup(m, k)
  {
    if m == [] then [(key, value)]
    else if m[0].0 == key then [(key, value)] + m[1..]
    else [m[0]] + Assign(m[1..], key, value)
  }

  function Drives(m: NasMap): set<string> {
    if m == [] then {} else {m[0].0} + Drives(m[1..])
  }

  function Lookup(m: NasMap, key: string): Option<string> {
    if m == [] then None else if m[0].0 == key then Some(m[0].1) else Lookup(m[1..], key)
  }

  /** The entry one `net use` line contributes, if it has at least three columns. */
  function LineEntry(line: string, resolve: string -> string): Option<(string, string)> {
    var columns := Words(line);
    if |columns| < 3 then None else Some((columns[1] + "/", resolve(columns[2])))
  }

  /** The table built from the lines, one line at a time. */
  function MappingFrom(lines: seq<string>, resolve: string -> string): (m: NasMap)
    ensures DistinctDrives(m)
  {
    if lines == [] then []
    else
      var m := MappingFrom(lines[..|lines| - 1], resolve);
      match LineEntry(lines[|lines| - 1], resolve)
      case None => m
      case Some(e) => Assign(m, e.0, e.1)
  }

  /** The lines of the output that follow the four header lines. */
  function BodyLines(stdout: string): seq<string> {
    var lines := SplitOn(Strip(stdout), '\n');
    if |lines| <= 4 then [] else lines[4..]
  }

  /** `get_nas_mapping()`: empty off Windows or without output. */
  function NasMapping(windows: bool, stdout: Option<string>, resolve: string -> string): NasMap {
    if !windows || stdout.None? then [] else MappingFrom(BodyLines(stdout.value), resolve)
  }

  /** The remote path of the last line that names `drive`: an independent
      reading of the table. */
  function LastFor(lines: seq<string>, drive: string, resolve: string -> string): Option<string> {
    if lines == [] then None
    else match LineEntry(lines[|lines| - 1], resolve)
      case Some(e) => if e.0 == drive then Some(e.1) else LastFor(lines[..|lines| - 1], drive, resolve)
      case None => LastFor(lines[..|lines| - 1], drive, resolve)
  }

  /** Looking a drive up in the table gives the remote path of the last line
      with at least three columns that names it; a drive no such line names is absent. */
  lemma {:induction false} MappingLaterLineWins(lines: seq<string>, drive: string, resolve: string -> string)
    ensures Lookup(MappingFrom(lines, resolve), drive) == LastFor(lines, drive, resolve)
  {
    if lines != [] {
      MappingLaterLineWins(lines[..|lines| - 1], drive, resolve);
    }
  }

  /** `line` has at least three columns and its second one, followed by
      "/", is `drive`. */
  predicate Names(line: string, drive: string) {
    |Words(line)| >= 3 && drive == Words(line)[1] + "/"
  }

  /** Every drive in the table is some line's second column followed by "/". */
  lemma {:induction false} MappingDrives(lines: seq<string>, drive: string, resolve: string -> string)
    ensures drive in Drives(MappingFrom(lines, resolve)) <==>
      exists k :: 0 <= k < |lines| && Names(lines[k], drive)
  {
    if lines != [] {
      var init, last := lines[..|lines| - 1], lines[|lines| - 1];
      MappingDrives(init, drive, resolve);
      assert lines == init + [last];
      NamesSnoc(init, last, drive);
      assert (match LineEntry(last, resolve) case Some(e) => e.0 == drive case None => false)
        == Names(last, drive);
    }
  }

  /** A line names `drive` when the last one does or one before it does. */
  lemma NamesSnoc(init: seq<string>, last: string, drive: string)
    ensures (exists k :: 0 <= k < |init + [last]| && Names((init + [last])[k], drive)) <==>
      (exists k :: 0 <= k < |init| && Names(init[k], drive)) || Names(last, drive)
  {
    var lines := init + [last];
    if exists k :: 0 <= k < |init| && Names(init[k], drive) {
      var k :| 0 <= k < |init| && Names(init[k], drive);
      assert lines[k] == init[k];
    }
    if Names(last, drive) {
      assert lines[|init|] == last;
    }
  }

  /** `get_nas_mapping` as the source writes it: a loop that fills a dict. */
  method GetNasMapping(windows: bool, stdout: Option<string>, resolve: string -> string) returns (m: NasMap)
    ensures m == NasMapping(windows, stdout, resolve)
    ensures DistinctDrives(m)
  {
    if !windows || stdout.None? {
      return [];
    }
    var lines := SplitOn(Strip(stdout.value), '\n');
    lines := if |lines| <= 4 then [] else lines[4..];
    m := [];
    var i := 0;
    while i < |lines|
      invariant 0 <= i <= |lines|
      invariant m == MappingFrom(lines[..i], resolve)
    {
      MappingStep(lines, i, resolve);
      var columns := Words(lines[i]);
      if |columns| >= 3 {
        m := Assign(m, columns[1] + "/", resolve(columns[2]));
      }
      i := i + 1;
    }
    assert lines[..i] == lines;
  }

  /** One more line of the table: an entry when it has three columns. */
  lemma MappingStep(lines: seq<string>, i: nat, resolve: string -> string)
    requires i < |lines|
    ensures MappingFrom(lines[..i + 1], resolve) ==
      if |Words(lines[i])| >= 3
      then Assign(MappingFrom(lines[..i], resolve), Words(lines[i])[1] + "/", resolve(Words(lines[i])[2]))
      else MappingFrom(lines[..i], resolve)
  {
    assert lines[..i + 1][..i] == lines[..i];
  }

  // ---------------------------------------------------------------------------
  // to_str

  /** Index of the first entry whose remote path is a prefix of `s`. */
  function FirstMatch(m: NasMap, s: string): (r: Option<nat>)
    ensures r.Some? ==> r.value < |m| && IsPrefix(m[r.value].1, s)
                        && forall j :: 0 <= j < r.value ==> !IsPrefix(m[j].1, s)
    ensures r.None? ==> forall j :: 0 <= j < |m| ==> !IsPrefix(m[j].1, s)
  {
    if m == [] then None
    else if IsPrefix(m[0].1, s) then Some(0)
    else match FirstMatch(m[1..], s)
      case None => None
      case Some(k) => Some(k + 1)
  }

  /** `to_str(path)`, given the outcome of `resolve()` (None when it raised
      `FileNotFoundError`), the unresolved posix form and the share table. */
  function ToStr(resolved: Option<string>, plain: string, m: NasMap): string {
    var res := resolved.GetOr(plain);
    RewriteShares(res, m)
  }

  /** The `for` over the share table in `to_str`: the first share whose remote
      path starts the string has every occurrence replaced by its drive. */
  function RewriteShares(res: string, m: NasMap): string {
    if m == [] then res
    else if IsPrefix(m[0].1, res) then ReplaceAll(res, m[0].1, m[0].0)
    else RewriteShares(res, m[1..])
  }

  /** The first matching share decides, and no match leaves the string alone. */
  lemma {:induction false} RewriteSharesFirstMatch(res: string, m: NasMap)
    ensures FirstMatch(m, res).None? ==> RewriteShares(res, m) == res
    ensures FirstMatch(m, res).Some? ==>
      var e := m[FirstMatch(m, res).value];
      RewriteShares(res, m) == ReplaceAll(res, e.1, e.0)
  {
    if m != [] && !IsPrefix(m[0].1, res) {
      RewriteSharesFirstMatch(res, m[1..]);
    }
  }

  /** `to_str` on a path whose `resolve()` raised falls back to the plain form;
      either way the first share that starts the string rewrites it, and a
      string no share starts is returned as it is. */
  lemma ToStrCases(resolved: Option<string>, plain: string, m: NasMap)
    ensures var res := if resolved.Some? then resolved.value else plain;
      && (FirstMatch(m, res).None? ==> ToStr(resolved, plain, m) == res)
      && (FirstMatch(m, res).Some? ==>
            var e := m[FirstMatch(m, res).value];
            ToStr(resolved, plain, m) == ReplaceAll(res, e.1, e.0))
  {
    RewriteSharesFirstMatch(resolved.GetOr(plain), m);
  }

  /** When the matching remote path occurs only at the start, the result is the
      drive followed by the rest of the path. */
  lemma RewriteSharesToDrive(res: string, m: NasMap, k: nat)
    requires k < |m| && m[k].1 != [] && IsPrefix(m[k].1, res)
    requires forall j :: 0 <= j < k ==> !IsPrefix(m[j].1, res)
    requires forall i :: 0 <= i <= |res| - |m[k].1| ==> !OccursAt(res[|m[k].1|..], m[k].1, i)
    ensures RewriteShares(res, m) == m[k].0 + res[|m[k].1|..]
  {
    RewriteSharesFirstMatch(res, m);
    ReplacePrefixOnly(res, m[k].1, m[k].0);
  }
}
