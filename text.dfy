/** The text encodings the scraper uses for its line files and its URLs:
    `str.strip`, `readlines`, `'\n'.join`, appending `line + '\n'`, and `str(int)`. */
module Text {
  import opened Outcomes

  /** The characters for which Python's `str.isspace()` holds; `str.strip()` removes them. */
  predicate IsSpace(c: char) {
    ('\t' <= c <= '\r') || ('\U{1C}' <= c <= ' ') || c == '\U{85}' || c == '\U{A0}'
    || c == '\U{1680}' || ('\U{2000}' <= c <= '\U{200A}') || c == '\U{2028}' || c == '\U{2029}'
    || c == '\U{202F}' || c == '\U{205F}' || c == '\U{3000}'
  }

  /** No whitespace at either end of `s`. */
  predicate Unpadded(s: string) {
    s == [] || (!IsSpace(s[0]) && !IsSpace(s[|s| - 1]))
  }

  /** No character that a text-mode read would turn into a line end. */
  predicate NoLineBreak(s: string) {
    '\n' !in s && '\r' !in s
  }

  /** A well-formed line file: empty, or its last line is complete. */
  predicate LineTerminated(s: string) {
    s == [] || s[|s| - 1] == '\n'
  }

  /** A URL that survives being written as a line and read back with `strip`. */
  predicate CleanLine(s: string) {
    NoLineBreak(s) && Unpadded(s)
  }

  function StripLeft(s: string): (r: string)
    ensures |r| <= |s| && r == s[|s| - |r|..]
    ensures r == [] || !IsSpace(r[0])
    ensures forall i :: 0 <= i < |s| - |r| ==> IsSpace(s[i])
  {
    if s != [] && IsSpace(s[0]) then StripLeft(s[1..]) else s
  }

  function StripRight(s: string): (r: string)
    ensures |r| <= |s| && r == s[..|r|]
    ensures r == [] || !IsSpace(r[|r| - 1])
    ensures forall i :: |r| <= i < |s| ==> IsSpace(s[i])
  {
    if s != [] && IsSpace(s[|s| - 1]) then StripRight(s[..|s| - 1]) else s
  }

  /** Python's `s.strip()`: the longest infix of `s` with no whitespace at its
      ends that leaves only whitespace outside it. */
  function Strip(s: string): (r: string)
    ensures Unpadded(r)
    ensures exists a, b :: 0 <= a <= b <= |s| && r == s[a..b]
                           && (forall k :: 0 <= k < a || b <= k < |s| ==> IsSpace(s[k]))
  {
    var l := StripLeft(s);
    var r := StripRight(l);
    PrefixOfSuffix(s, l, r);
    var a := |s| - |l|;
    var b := a + |r|;
    assert 0 <= a <= b <= |s| && r == s[a..b] && (forall k :: 0 <= k < a || b <= k < |s| ==> IsSpace(s[k]));
    r
  }

  /** A prefix of a suffix is an infix; what the prefix leaves of the suffix
      is what it leaves at the end of the whole. */
  lemma PrefixOfSuffix(s: string, l: string, r: string)
    requires |l| <= |s| && l == s[|s| - |l|..]
    requires |r| <= |l| && r == l[..|r|]
    requires forall i :: |r| <= i < |l| ==> IsSpace(l[i])
    ensures r == s[|s| - |l|..|s| - |l| + |r|]
    ensures forall k :: |s| - |l| + |r| <= k < |s| ==> IsSpace(s[k])
  {
    var a := |s| - |l|;
    forall k | a + |r| <= k < |s|
      ensures IsSpace(s[k])
    {
      assert s[k] == l[k - a];
    }
  }

  /** `strip` changes exactly the strings that have whitespace at an end. */
  lemma StripFixesExactlyUnpadded(s: string)
    ensures Strip(s) == s <==> Unpadded(s)
  {
    if Unpadded(s) {
      assert StripLeft(s) == s;
    }
  }

  /** A clean line read back with its terminator: `strip` removes just the '\n'. */
  lemma {:induction false} StripTerminatedLine(u: string)
    requires CleanLine(u)
    ensures Strip(u + "\n") == u
  {
    if u == [] {
      assert StripLeft("\n") == StripLeft([]);
    } else {
      assert StripLeft(u + "\n") == u + "\n";
      assert (u + "\n")[..|u|] == u;
      assert StripRight(u + "\n") == StripRight(u);
      StripFixesExactlyUnpadded(u);
    }
  }

  /** The position of the first `c` in `s`. */
  function FirstIndex(s: string, c: char): (i: nat)
    requires c in s
    ensures i < |s| && s[i] == c && c !in s[..i]
  {
    if s[0] == c then 0
    else
      assert s == [s[0]] + s[1..];
      var j := FirstIndex(s[1..], c);
      assert s[..j + 1] == [s[0]] + s[1..][..j];
      j + 1
  }

  /** Any position that holds `c` with no `c` before it is the first one. */
  lemma FirstIndexUnique(s: string, c: char, k: nat)
    requires k < |s| && s[k] == c && c !in s[..k]
    ensures FirstIndex(s, c) == k
  {
  }

  /** Python's `readlines()` on text `s`: every line keeps its '\n', the last
      one may lack it, and an empty file has no lines. */
  function SplitLines(s: string): (r: seq<string>)
    ensures s == [] <==> r == []
    ensures forall k :: 0 <= k < |r| ==> r[k] != []
    decreases |s|
  {
    if s == [] then []
    else if '\n' !in s then [s]
    else
      var i := FirstIndex(s, '\n');
      [s[..i + 1]] + SplitLines(s[i + 1..])
  }

  function Concat(ls: seq<string>): string {
    if ls == [] then [] else ls[0] + Concat(ls[1..])
  }

  /** Splitting into lines loses nothing: the lines put together are the text. */
  lemma {:induction false} SplitLinesConcat(s: string)
    ensures Concat(SplitLines(s)) == s
    decreases |s|
  {
    if s == [] {
    } else if '\n' !in s {
      assert Concat([s]) == s + Concat([]);
    } else {
      var i := FirstIndex(s, '\n');
      SplitLinesConcat(s[i + 1..]);
      ConcatAtBreak(s, i);
    }
  }

  /** The lines of a text put together, given that this holds after its first break. */
  lemma ConcatAtBreak(s: string, i: nat)
    requires i < |s| && s[i] == '\n' && '\n' !in s[..i]
    requires Concat(SplitLines(s[i + 1..])) == s[i + 1..]
    ensures Concat(SplitLines(s)) == s
  {
    SplitAtFirstBreak(s, i);
    ConcatCons(s[..i + 1], SplitLines(s[i + 1..]));
    assert s[..i + 1] + s[i + 1..] == s;
  }

  lemma ConcatCons(x: string, rest: seq<string>)
    ensures Concat([x] + rest) == x + Concat(rest)
  {
    assert ([x] + rest)[1..] == rest;
  }

  lemma ConsAssoc<T>(x: T, p: seq<T>, q: seq<T>)
    ensures [x] + (p + q) == [x] + p + q
  {
  }

  /** A text with a line break splits at its first one. */
  lemma SplitAtFirstBreak(s: string, i: nat)
    requires i < |s| && s[i] == '\n' && '\n' !in s[..i]
    ensures SplitLines(s) == [s[..i + 1]] + SplitLines(s[i + 1..])
  {
    FirstIndexUnique(s, '\n', i);
  }

  /** A complete first line comes off a text the same way with or without
      more text after it. */
  lemma SplitFirstLine(a: string, b: string, i: nat)
    requires LineTerminated(a) && i < |a| && a[i] == '\n' && '\n' !in a[..i]
    ensures SplitLines(a + b) == [a[..i + 1]] + SplitLines(a[i + 1..] + b)
    ensures SplitLines(a) == [a[..i + 1]] + SplitLines(a[i + 1..])
    ensures LineTerminated(a[i + 1..])
  {
    FirstBreakWithTail(a, b, i);
    SplitAtFirstBreak(a, i);
    var tail := a[i + 1..];
    if tail != [] {
      assert tail[|tail| - 1] == a[|a| - 1];
    }
  }

  lemma FirstBreakWithTail(a: string, b: string, i: nat)
    requires i < |a| && a[i] == '\n' && '\n' !in a[..i]
    ensures SplitLines(a + b) == [a[..i + 1]] + SplitLines(a[i + 1..] + b)
  {
    var ab := a + b;
    assert ab[..i] == a[..i];
    SplitAtFirstBreak(ab, i);
    assert ab[..i + 1] == a[..i + 1];
    assert ab[i + 1..] == a[i + 1..] + b;
  }

  /** Text after a complete last line starts new lines of its own. */
  lemma {:induction false} SplitLinesAppend(a: string, b: string)
    requires LineTerminated(a)
    ensures SplitLines(a + b) == SplitLines(a) + SplitLines(b)
    decreases |a|
  {
    if a == [] {
      assert a + b == b;
    } else {
      var i := FirstIndex(a, '\n');
      SplitFirstLine(a, b, i);
      SplitLinesAppend(a[i + 1..], b);
      ConsAssoc(a[..i + 1], SplitLines(a[i + 1..]), SplitLines(b));
    }
  }

  /** `strip` applied to every line, in order. */
  function StripAll(ls: seq<string>): (r: seq<string>)
    ensures |r| == |ls|
    ensures forall k :: 0 <= k < |r| ==> r[k] == Strip(ls[k])
  {
    if ls == [] then [] else [Strip(ls[0])] + StripAll(ls[1..])
  }

  lemma {:induction false} StripAllAppend(a: seq<string>, b: seq<string>)
    ensures StripAll(a + b) == StripAll(a) + StripAll(b)
  {
    if a == [] {
      assert a + b == b;
    } else {
      assert (a + b)[1..] == a[1..] + b;
      StripAllAppend(a[1..], b);
    }
  }

  /** Python's `[line.strip() for line in f.readlines()]`. */
  function ReadLines(s: string): (r: seq<string>)
    ensures |r| == |SplitLines(s)|
    ensures forall k :: 0 <= k < |r| ==> Unpadded(r[k])
  {
    StripAll(SplitLines(s))
  }

  /** A line file that may not exist; a missing file reads as no lines. */
  function ReadLinesOrEmpty(f: Option<string>): (r: seq<string>)
    ensures f.None? ==> r == []
    ensures f.Some? ==> r == ReadLines(f.value)
  {
    match f
    case None => []
    case Some(s) => ReadLines(s)
  }

  lemma ReadLinesAppend(a: string, b: string)
    requires LineTerminated(a)
    ensures ReadLines(a + b) == ReadLines(a) + ReadLines(b)
  {
    SplitLinesAppend(a, b);
    StripAllAppend(SplitLines(a), SplitLines(b));
  }

  /** What `f.write(f'{line}\n')` appends once per line, in order. */
  function Terminated(ls: seq<string>): (r: string)
    ensures LineTerminated(r)
    ensures r == [] <==> ls == []
  {
    if ls == [] then "" else Terminated(ls[..|ls| - 1]) + ls[|ls| - 1] + "\n"
  }

  /** One complete line is read as exactly that line. */
  lemma SplitSingleLine(u: string)
    requires '\n' !in u
    ensures SplitLines(u + "\n") == [u + "\n"]
  {
    var line := u + "\n";
    assert line[..|u|] == u;
    FirstIndexUnique(line, '\n', |u|);
    assert line[..|u| + 1] == line;
    assert line[|u| + 1..] == [];
  }

  /** One clean line with its newline reads back as that line. */
  lemma ReadSingleLine(u: string)
    requires CleanLine(u)
    ensures ReadLines(u + "\n") == [u]
  {
    var line := u + "\n";
    SplitSingleLine(u);
    StripTerminatedLine(u);
    assert StripAll([line]) == [Strip(line)] + StripAll([]);
  }

  /** Appending one clean line and reading back yields the old lines plus that line. */
  lemma ReadAppendLine(f: string, u: string)
    requires LineTerminated(f) && CleanLine(u)
    ensures ReadLines(f + u + "\n") == ReadLines(f) + [u]
    ensures LineTerminated(f + u + "\n")
  {
    var line := u + "\n";
    assert f + u + "\n" == f + line;
    ReadLinesAppend(f, line);
    ReadSingleLine(u);
  }

  /** The last line of a line-per-line encoding comes last. */
  lemma TerminatedSnoc(f: string, ls: seq<string>)
    requires ls != []
    ensures f + Terminated(ls) == f + Terminated(ls[..|ls| - 1]) + ls[|ls| - 1] + "\n"
  {
    var init, u := ls[..|ls| - 1], ls[|ls| - 1];
    AppendLineAssoc(f, Terminated(init), u);
  }

  lemma AppendSnoc<T>(a: seq<T>, ls: seq<T>)
    requires ls != []
    ensures a + ls[..|ls| - 1] + [ls[|ls| - 1]] == a + ls
  {
    assert ls[..|ls| - 1] + [ls[|ls| - 1]] == ls;
  }

  lemma AppendLineAssoc(f: string, t: string, u: string)
    ensures f + (t + u + "\n") == f + t + u + "\n"
  {
  }

  /** Appending clean lines one `line + '\n'` at a time and reading back
      yields the old lines followed by the new ones, and the file stays well formed. */
  lemma {:induction false} ReadAppendedLines(f: string, ls: seq<string>)
    requires LineTerminated(f)
    requires forall k :: 0 <= k < |ls| ==> CleanLine(ls[k])
    ensures ReadLines(f + Terminated(ls)) == ReadLines(f) + ls
    ensures LineTerminated(f + Terminated(ls))
  {
    if ls == [] {
      assert f + Terminated(ls) == f;
    } else {
      var init, u := ls[..|ls| - 1], ls[|ls| - 1];
      ReadAppendedLines(f, init);
      TerminatedSnoc(f, ls);
      AppendSnoc(ReadLines(f), ls);
      ReadAppendLine(f + Terminated(init), u);
    }
  }

  /** A file after `line + '\n'` is appended for each of `ls` in turn, opened
      in append mode only when there is something to append. */
  function AppendLines(f: Option<string>, ls: seq<string>): (r: Option<string>)
    ensures r.Some? <==> f.Some? || ls != []
    ensures f.Some? ==> r.Some? && f.value <= r.value
  {
    if ls == [] then f else Some(f.GetOr("") + Terminated(ls))
  }

  /** Appending one more line extends the file by exactly that line. */
  lemma AppendLinesSnoc(f: Option<string>, ls: seq<string>, u: string)
    ensures AppendLines(f, ls + [u]) == Some(AppendLines(f, ls).GetOr("") + u + "\n")
  {
    var g := f.GetOr("");
    assert (ls + [u])[..|ls|] == ls;
    if ls == [] {
      assert ls + [u] == [u];
      assert Terminated([u]) == u + "\n";
      assert g + (u + "\n") == g + u + "\n";
    } else {
      AppendLineAssoc(g, Terminated(ls), u);
    }
  }

  /** Lines appended to a well-formed file, or to a missing one, read back
      after the lines already there. */
  lemma AppendLinesReadBack(f: Option<string>, ls: seq<string>)
    requires LineTerminated(f.GetOr(""))
    requires forall k :: 0 <= k < |ls| ==> CleanLine(ls[k])
    ensures ReadLinesOrEmpty(AppendLines(f, ls)) == ReadLinesOrEmpty(f) + ls
    ensures LineTerminated(AppendLines(f, ls).GetOr(""))
  {
    if ls != [] {
      ReadAppendedLines(f.GetOr(""), ls);
      if f.None? {
        assert SplitLines("") == [];
      }
    }
  }

  /** Python's `'\n'.join(ls)`: separators between lines, none after the last,
      so a non-empty join is one '\n' short of the line-per-line encoding. */
  function Join(ls: seq<string>): (r: string)
    ensures ls == [] ==> r == ""
    ensures ls != [] ==> r + "\n" == Terminated(ls)
  {
    if ls == [] then ""
    else if |ls| == 1 then
      assert ls[..0] == [];
      ls[0]
    else
      var init, u := ls[..|ls| - 1], ls[|ls| - 1];
      var j := Join(init);
      assert j + "\n" + u + "\n" == Terminated(init) + u + "\n";
      j + "\n" + u
  }

  /** A line without terminator, alone in a file, is read as that line. */
  lemma ReadUnterminatedLine(u: string)
    requires CleanLine(u) && u != []
    ensures ReadLines(u) == [u]
  {
    assert SplitLines(u) == [u];
    StripFixesExactlyUnpadded(u);
    assert StripAll([u]) == [Strip(u)] + StripAll([]);
  }

  /** A non-empty join is the line-per-line encoding of all lines but the last,
      followed by the last line with no terminator. */
  lemma JoinAsTerminated(f: string, ls: seq<string>)
    requires ls != []
    ensures f + Join(ls) == f + Terminated(ls[..|ls| - 1]) + ls[|ls| - 1]
  {
    var init, u := ls[..|ls| - 1], ls[|ls| - 1];
    if init == [] {
      assert Join(ls) == u;
    } else {
      assert Join(ls) == Join(init) + "\n" + u;
      AppendLineAssoc(f, Join(init), u);
    }
  }

  /** A single batch written with `'\n'.join` reads back intact after a complete
      file, but leaves the file without a complete last line. */
  lemma ReadJoinedBatch(f: string, ls: seq<string>)
    requires LineTerminated(f) && ls != []
    requires forall k :: 0 <= k < |ls| ==> CleanLine(ls[k])
    requires ls[|ls| - 1] != []
    ensures ReadLines(f + Join(ls)) == ReadLines(f) + ls
    ensures !LineTerminated(f + Join(ls))
  {
    var init, u := ls[..|ls| - 1], ls[|ls| - 1];
    JoinAsTerminated(f, ls);
    ReadAppendedLines(f, init);
    var g := f + Terminated(init);
    ReadLinesAppend(g, u);
    ReadUnterminatedLine(u);
    AppendSnoc(ReadLines(f), ls);
    UnterminatedAfter(g, u);
  }

  /** A non-empty join whose last line is non-empty leaves the file without a
      final newline. */
  lemma JoinLeavesPartialLine(f: string, ls: seq<string>)
    requires ls != [] && ls[|ls| - 1] != [] && '\n' !in ls[|ls| - 1]
    ensures !LineTerminated(f + Join(ls))
  {
    JoinAsTerminated(f, ls);
    UnterminatedAfter(f + Terminated(ls[..|ls| - 1]), ls[|ls| - 1]);
  }

  /** Text that ends in a line without terminator leaves the file incomplete. */
  lemma UnterminatedAfter(g: string, u: string)
    requires u != [] && '\n' !in u
    ensures !LineTerminated(g + u)
  {
    assert (g + u)[|g + u| - 1] == u[|u| - 1];
  }

  /** Two batches appended with `'\n'.join` and no terminator: the last line of
      the first batch and the first line of the second come back as one line. */
  lemma JoinedAppendsGlue(f: string, x: string, y: string)
    requires LineTerminated(f) && NoLineBreak(x) && NoLineBreak(y)
    requires x != [] && Unpadded(x + y)
    ensures ReadLines(f + Join([x]) + Join([y])) == ReadLines(f) + [x + y]
    ensures ReadLines(f + Join([x]) + Join([y])) != ReadLines(f) + [x, y]
  {
    assert Join([x]) == x && Join([y]) == y;
    Assoc3(f, x, y);
    ReadLinesAppend(f, x + y);
    assert NoLineBreak(x + y);
    ReadUnterminatedLine(x + y);
  }

  /** URLs as the scraper builds them: non-empty, and each survives a write and
      read-back as one line. */
  predicate CleanUrls(ls: seq<string>) {
    forall k :: 0 <= k < |ls| ==> CleanLine(ls[k]) && ls[k] != []
  }

  /** Where the last line of `f` starts: after its last '\n', or at 0. */
  function LastBreak(f: string): (k: nat)
    ensures k <= |f| && LineTerminated(f[..k]) && '\n' !in f[k..]
  {
    if f == [] then 0
    else if f[|f| - 1] == '\n' then |f|
    else
      var k := LastBreak(f[..|f| - 1]);
      assert f[..|f| - 1][..k] == f[..k];
      assert f[k..] == f[..|f| - 1][k..] + [f[|f| - 1]];
      k
  }

  /** `strip` removes leading whitespace only up to the first other character. */
  lemma {:induction false} StripLeftAppend(z: string, w: string)
    requires z != [] && !IsSpace(z[|z| - 1])
    ensures StripLeft(z + w) == StripLeft(z) + w
    decreases |z|
  {
    if IsSpace(z[0]) {
      assert (z + w)[1..] == z[1..] + w;
      StripLeftAppend(z[1..], w);
    }
  }

  lemma {:induction false} StripLeftKeepsLast(z: string)
    requires z != [] && !IsSpace(z[|z| - 1])
    ensures StripLeft(z) != [] && StripLeft(z)[|StripLeft(z)| - 1] == z[|z| - 1]
    decreases |z|
  {
    if IsSpace(z[0]) {
      StripLeftKeepsLast(z[1..]);
    }
  }

  /** A line ending in a visible character strips the same with or without its '\n'. */
  lemma StripDropsNewline(z: string)
    requires z != [] && !IsSpace(z[|z| - 1])
    ensures Strip(z + "\n") == Strip(z)
  {
    StripLeftAppend(z, "\n");
    StripLeftKeepsLast(z);
    var l := StripLeft(z);
    assert (l + "\n")[..|l|] == l;
  }

  /** A join of two or more lines starts with the first line and a separator. */
  lemma {:induction false} JoinCons(ls: seq<string>)
    requires |ls| >= 2
    ensures Join(ls) == ls[0] + "\n" + Join(ls[1..])
    decreases |ls|
  {
    var init, u := ls[..|ls| - 1], ls[|ls| - 1];
    var tail := ls[1..];
    assert tail[..|tail| - 1] == init[1..];
    assert tail[|tail| - 1] == u;
    if |ls| == 2 {
      assert init == [ls[0]] && tail == [u];
    } else {
      JoinCons(init);
      assert Join(ls) == Join(init) + "\n" + u;
      assert Join(tail) == Join(init[1..]) + "\n" + u;
    }
  }

  /** A text with no line break is one line. */
  lemma ReadOneLine(z: string)
    requires z != [] && '\n' !in z
    ensures ReadLines(z) == [Strip(z)]
  {
    assert SplitLines(z) == [z];
    assert StripAll([z]) == [Strip(z)] + StripAll([]);
  }

  /** A join of clean URLs, alone in a file, reads back as those URLs. */
  lemma ReadJoin(ls: seq<string>)
    requires CleanUrls(ls)
    ensures ReadLines(Join(ls)) == ls
  {
    assert SplitLines("") == [];
    if ls != [] {
      ReadJoinedBatch("", ls);
      assert "" + Join(ls) == Join(ls);
    }
  }

  /** The partial last line of `f` with the first URL of a batch glued onto it,
      followed by the remaining URLs. */
  lemma GluedTail(t: string, ls: seq<string>)
    requires t != [] && '\n' !in t && ls != [] && CleanUrls(ls)
    ensures ReadLines(t + Join(ls)) == [Strip(t + ls[0])] + ls[1..]
  {
    var x := ls[0];
    assert '\n' !in t + x;
    if |ls| == 1 {
      assert Join(ls) == x;
      ReadOneLine(t + x);
    } else {
      var rest := ls[1..];
      JoinCons(ls);
      Assoc4(t, x, "\n", Join(rest));
      ReadTerminatedOneLine(t + x);
      ReadLinesAppend(t + x + "\n", Join(rest));
      CleanUrlsTail(ls);
      ReadJoin(rest);
    }
  }

  lemma Assoc4<T>(a: seq<T>, b: seq<T>, c: seq<T>, d: seq<T>)
    ensures a + (b + c + d) == a + b + c + d
  {
  }

  lemma CleanUrlsTail(ls: seq<string>)
    requires ls != [] && CleanUrls(ls)
    ensures CleanUrls(ls[1..])
  {
    forall k | 0 <= k < |ls| - 1
      ensures CleanLine(ls[1..][k]) && ls[1..][k] != []
    {
      assert ls[1..][k] == ls[k + 1];
    }
  }

  /** One line with a visible last character, read with its '\n'. */
  lemma ReadTerminatedOneLine(z: string)
    requires z != [] && '\n' !in z && !IsSpace(z[|z| - 1])
    ensures ReadLines(z + "\n") == [Strip(z)]
    ensures LineTerminated(z + "\n")
  {
    SplitSingleLine(z);
    assert StripAll([z + "\n"]) == [Strip(z + "\n")] + StripAll([]);
    StripDropsNewline(z);
  }

  /** What a joined batch appended to a file without a final newline reads back
      as: the file's complete lines, then its partial last line glued to the
      first URL of the batch, then the other URLs. */
  function GluedLines(f: string, ls: seq<string>): (r: seq<string>)
    requires ls != []
    ensures |r| == |ReadLines(f[..LastBreak(f)])| + |ls|
  {
    ReadLines(f[..LastBreak(f)]) + [Strip(f[LastBreak(f)..] + ls[0])] + ls[1..]
  }

  /** A joined batch after a file without a final newline: only the file's last
      line changes, into that line glued to the batch's first URL. */
  lemma ReadJoinedAfterPartialLine(f: string, ls: seq<string>)
    requires !LineTerminated(f) && ls != [] && CleanUrls(ls)
    ensures ReadLines(f) == ReadLines(f[..LastBreak(f)]) + [Strip(f[LastBreak(f)..])]
    ensures ReadLines(f + Join(ls)) == GluedLines(f, ls)
  {
    var k := LastBreak(f);
    var head, t := f[..k], f[k..];
    assert f == head + t;
    assert t != [];
    ReadLinesAppend(head, t);
    ReadOneLine(t);
    Assoc3(head, t, Join(ls));
    ReadLinesAppend(head, t + Join(ls));
    GluedTail(t, ls);
    Assoc3(ReadLines(head), [Strip(t + ls[0])], ls[1..]);
  }

  lemma Assoc3<T>(a: seq<T>, b: seq<T>, c: seq<T>)
    ensures a + b + c == a + (b + c)
  {
  }

  /** The same two appends written line by line, `x + '\n'` then `y + '\n'`,
      read back as two lines. */
  lemma TerminatedAppendsSeparate(f: string, x: string, y: string)
    requires LineTerminated(f) && CleanLine(x) && CleanLine(y)
    ensures ReadLines(f + x + "\n" + y + "\n") == ReadLines(f) + [x, y]
  {
    var g := f + x + "\n";
    ReadAppendLine(f, x);
    ReadAppendLine(g, y);
    SnocSnoc(ReadLines(f), x, y);
  }

  lemma SnocSnoc<T>(a: seq<T>, x: T, y: T)
    ensures a + [x] + [y] == a + [x, y]
  {
  }

  predicate IsDigit(c: char) {
    '0' <= c <= '9'
  }

  function DigitChar(d: nat): (c: char)
    requires d < 10
    ensures IsDigit(c) && c as int - '0' as int == d
  {
    ('0' as int + d) as char
  }

  /** Python's `str(n)` for a non-negative integer. */
  function DecimalString(n: nat): (r: string)
    ensures r != [] && forall k :: 0 <= k < |r| ==> IsDigit(r[k])
    ensures r[0] == '0' ==> n == 0
  {
    if n < 10 then [DigitChar(n)] else DecimalString(n / 10) + [DigitChar(n % 10)]
  }

  function DigitValue(c: char): nat
    requires IsDigit(c)
  {
    c as int - '0' as int
  }

  /** Python's `int(s)` for a string of decimal digits. */
  function ParseDecimal(s: string): nat
    requires forall k :: 0 <= k < |s| ==> IsDigit(s[k])
  {
    if s == [] then 0 else ParseDecimal(s[..|s| - 1]) * 10 + DigitValue(s[|s| - 1])
  }

  /** `int(str(n)) == n`. */
  lemma {:induction false} DecimalRoundTrip(n: nat)
    ensures ParseDecimal(DecimalString(n)) == n
  {
    var s := DecimalString(n);
    if n < 10 {
      assert s[..0] == [];
    } else {
      assert s[..|s| - 1] == DecimalString(n / 10);
      DecimalRoundTrip(n / 10);
    }
  }

  /** Distinct numbers print differently. */
  lemma DecimalInjective(m: nat, n: nat)
    requires DecimalString(m) == DecimalString(n)
    ensures m == n
  {
    DecimalRoundTrip(m);
    DecimalRoundTrip(n);
  }
}
