/** Strings as the browser's JavaScript engine treats them: String.prototype.split
    and Array.prototype.join, the regular-expression class \s, trim, and the ASCII
    part of toLowerCase / toUpperCase. Dafny's `char` is a Unicode scalar value, so a
    `string` here is the sequence of code points that `Array.from` would produce. */
module Text {

  datatype Option<T> = None | Some(value: T)

  const NBSP: char := '\U{00A0}'

  /** Array.prototype.findIndex from position `i` on: the first index whose element
      satisfies `p`, or nothing. */
  function FindFrom<T>(s: seq<T>, p: T -> bool, i: nat): (r: Option<nat>)
    requires i <= |s|
    ensures r.Some? ==> i <= r.value < |s| && p(s[r.value])
                        && forall k :: i <= k < r.value ==> !p(s[k])
    ensures r.None? ==> forall k :: i <= k < |s| ==> !p(s[k])
    decreases |s| - i
  {
    if i == |s| then None
    else if p(s[i]) then Some(i)
    else FindFrom(s, p, i + 1)
  }

  function Find<T>(s: seq<T>, p: T -> bool): (r: Option<nat>)
    ensures r.Some? ==> r.value < |s| && p(s[r.value]) && forall k :: 0 <= k < r.value ==> !p(s[k])
    ensures r.None? ==> forall k :: 0 <= k < |s| ==> !p(s[k])
  {
    FindFrom(s, p, 0)
  }

  /** The ECMAScript WhiteSpace and LineTerminator code points: what \s matches and
      what String.prototype.trim removes. */
  predicate IsJsWhitespace(c: char)
  {
    || c == ' ' || c == '\t' || c == '\n' || c == '\U{000B}' || c == '\U{000C}' || c == '\r'
    || c == NBSP || c == '\U{1680}' || ('\U{2000}' <= c <= '\U{200A}')
    || c == '\U{2028}' || c == '\U{2029}' || c == '\U{202F}' || c == '\U{205F}'
    || c == '\U{3000}' || c == '\U{FEFF}'
  }

  function LowerChar(c: char): char
  {
    if 'A' <= c <= 'Z' then (c as int + 32) as char else c
  }

  function UpperChar(c: char): char
  {
    if 'a' <= c <= 'z' then (c as int - 32) as char else c
  }

  /** toLowerCase, on the ASCII letters. */
  function Lower(s: string): (r: string)
    ensures |r| == |s|
    ensures forall i :: 0 <= i < |s| ==> r[i] == LowerChar(s[i])
  {
    seq(|s|, i requires 0 <= i < |s| => LowerChar(s[i]))
  }

  function TrimStart(s: string): (r: string)
    ensures |r| <= |s| && r == s[|s| - |r|..]
    ensures forall i :: 0 <= i < |s| - |r| ==> IsJsWhitespace(s[i])
    ensures |r| > 0 ==> !IsJsWhitespace(r[0])
  {
    if |s| > 0 && IsJsWhitespace(s[0]) then TrimStart(s[1..]) else s
  }

  function TrimEnd(s: string): (r: string)
    ensures |r| <= |s| && r == s[..|r|]
    ensures forall i :: |r| <= i < |s| ==> IsJsWhitespace(s[i])
    ensures |r| > 0 ==> !IsJsWhitespace(r[|r| - 1])
  {
    if |s| > 0 && IsJsWhitespace(s[|s| - 1]) then TrimEnd(s[..|s| - 1]) else s
  }

  /** String.prototype.trim: the longest infix that neither starts nor ends with
      white space, obtained by removing only white space. */
  function Trim(s: string): (r: string)
    ensures exists i, j :: 0 <= i <= j <= |s| && r == s[i..j]
                           && (forall k :: 0 <= k < i ==> IsJsWhitespace(s[k]))
                           && (forall k :: j <= k < |s| ==> IsJsWhitespace(s[k]))
    ensures |r| > 0 ==> !IsJsWhitespace(r[0]) && !IsJsWhitespace(r[|r| - 1])
  {
    var t := TrimStart(s);
    var r := TrimEnd(t);
    assert r == s[|s| - |t|..|s| - |t| + |r|];
    r
  }

  /** A string already trimmed is left as it is. */
  lemma TrimIdempotent(s: string)
    requires |s| > 0 ==> !IsJsWhitespace(s[0]) && !IsJsWhitespace(s[|s| - 1])
    ensures Trim(s) == s
  {
  }

  /** `sep` occurs in `s` starting at position `p`. */
  predicate OccursAt(s: string, sep: string, p: nat)
  {
    p + |sep| <= |s| && s[p..p + |sep|] == sep
  }

  predicate Contains(s: string, sep: string)
  {
    exists p: nat | p <= |s| :: OccursAt(s, sep, p)
  }

  /** String.prototype.split with a non-empty string separator: the pieces between
      the occurrences of `sep` found scanning left to right without overlap. */
  function SplitOn(s: string, sep: string): (parts: seq<string>)
    requires |sep| > 0
    ensures |parts| >= 1
    decreases |s|
  {
    if |s| < |sep| then [s]
    else if s[..|sep|] == sep then [""] + SplitOn(s[|sep|..], sep)
    else
      var rest := SplitOn(s[1..], sep);
      [[s[0]] + rest[0]] + rest[1..]
  }

  /** Array.prototype.join: the first part opens the result and the last one
      closes it. */
  function Join(parts: seq<string>, sep: string): (r: string)
    ensures |parts| == 0 ==> r == ""
    ensures |parts| > 0 ==> |r| >= |parts[0]| && r[..|parts[0]|] == parts[0]
    ensures |parts| > 0 ==> |r| >= |parts[|parts| - 1]| && r[|r| - |parts[|parts| - 1]|..] == parts[|parts| - 1]
  {
    if |parts| == 0 then ""
    else if |parts| == 1 then parts[0]
    else parts[0] + sep + Join(parts[1..], sep)
  }

  /** `.filter(Boolean)` on strings: drop the empty ones. Every non-empty part is
      kept and nothing else appears. */
  function NonEmpty(parts: seq<string>): (r: seq<string>)
    ensures forall k :: 0 <= k < |r| ==> r[k] != ""
    ensures forall x :: x in r <==> x in parts && x != ""
    ensures |r| <= |parts|
  {
    if |parts| == 0 then []
    else if parts[0] == "" then NonEmpty(parts[1..])
    else [parts[0]] + NonEmpty(parts[1..])
  }

  /** One part is kept exactly when it is non-empty. */
  lemma NonEmptySingle(x: string)
    ensures NonEmpty([x]) == (if x == "" then [] else [x])
  {
    assert [x][1..] == [];
  }

  /** Filtering distributes over concatenation, so the kept parts stay in order. */
  lemma {:induction false} NonEmptyAppend(a: seq<string>, b: seq<string>)
    ensures NonEmpty(a + b) == NonEmpty(a) + NonEmpty(b)
  {
    if |a| > 0 {
      assert (a + b)[0] == a[0];
      assert (a + b)[1..] == a[1..] + b;
      NonEmptyAppend(a[1..], b);
    } else {
      assert a + b == b;
    }
  }

  lemma {:induction false} NonEmptyKeeps(parts: seq<string>)
    requires forall k :: 0 <= k < |parts| ==> parts[k] != ""
    ensures NonEmpty(parts) == parts
  {
    if |parts| > 0 {
      NonEmptyKeeps(parts[1..]);
    }
  }

  /** A string without `sep` has no `sep` in its tail either. */
  lemma NoOccurrenceInTail(w: string, sep: string)
    requires |w| > 0 && !Contains(w, sep)
    ensures !Contains(w[1..], sep)
  {
    forall p: nat ensures !OccursAt(w[1..], sep, p) {
      if OccursAt(w[1..], sep, p) {
        assert w[1..][p..p + |sep|] == w[p + 1..p + 1 + |sep|];
        assert OccursAt(w, sep, p + 1);
      }
    }
  }

  /** A string in which `sep` does not occur is split into itself alone. */
  lemma {:induction false} SplitNoSep(s: string, sep: string)
    requires |sep| > 0 && !Contains(s, sep)
    ensures SplitOn(s, sep) == [s]
    decreases |s|
  {
    if |s| >= |sep| {
      assert !OccursAt(s, sep, 0);
      NoOccurrenceInTail(s, sep);
      SplitNoSep(s[1..], sep);
      assert [s[0]] + s[1..] == s;
    }
  }

  /** The first piece of `d + sep + l` is `d` when `sep` first occurs at `|d|`, that is
      when it does not occur in `d` followed by all but the last character of `sep`. */
  lemma {:induction false} SplitConcat(d: string, sep: string, l: string)
    requires |sep| > 0 && !Contains(d + sep[..|sep| - 1], sep)
    ensures SplitOn(d + sep + l, sep) == [d] + SplitOn(l, sep)
    decreases |d|
  {
    var s := d + sep + l;
    if |d| == 0 {
      assert s == sep + l;
      assert s[..|sep|] == sep;
      assert s[|sep|..] == l;
    } else {
      var w := d + sep[..|sep| - 1];
      assert s[..|sep|] == w[..|sep|];
      assert !OccursAt(w, sep, 0);
      assert w[1..] == d[1..] + sep[..|sep| - 1];
      NoOccurrenceInTail(w, sep);
      SplitConcat(d[1..], sep, l);
      assert s[1..] == d[1..] + sep + l;
      assert [d[0]] + d[1..] == d;
    }
  }

  /** Splitting on a one-character separator leaves that character in no piece. */
  lemma {:induction false} SplitPiecesFree(s: string, c: char)
    ensures forall k :: 0 <= k < |SplitOn(s, [c])| ==> c !in SplitOn(s, [c])[k]
    decreases |s|
  {
    if |s| >= 1 {
      if s[..1] == [c] {
        SplitPiecesFree(s[1..], c);
      } else {
        SplitPiecesFree(s[1..], c);
        assert s[0] != c;
      }
    }
  }

  lemma NoCharNoOccurrence(s: string, c: char)
    requires c !in s
    ensures !Contains(s, [c])
  {
    forall p: nat ensures !OccursAt(s, [c], p) {
      if p + 1 <= |s| {
        assert s[p..p + 1] == [s[p]];
      }
    }
  }

  /** Joining the pieces of a split with the separator gives the string back. */
  lemma {:induction false} SplitJoinRoundTrip(s: string, sep: string)
    requires |sep| > 0
    ensures Join(SplitOn(s, sep), sep) == s
    decreases |s|, 1
  {
    if |s| < |sep| {
      assert SplitOn(s, sep) == [s];
    } else if s[..|sep|] == sep {
      SplitJoinAtSep(s, sep);
    } else {
      SplitJoinPastChar(s, sep);
    }
  }

  /** The split step that finds the separator at the front. */
  lemma {:induction false} SplitJoinAtSep(s: string, sep: string)
    requires |sep| > 0 && |s| >= |sep| && s[..|sep|] == sep
    ensures Join(SplitOn(s, sep), sep) == s
    decreases |s|, 0
  {
    var t := s[|sep|..];
    var rest := SplitOn(t, sep);
    calc {
      Join(SplitOn(s, sep), sep);
      Join([""] + rest, sep);
      { JoinConsEmpty(rest, sep); }
      sep + Join(rest, sep);
      { SplitJoinRoundTrip(t, sep); }
      sep + t;
      { assert s == s[..|sep|] + t; }
      s;
    }
  }

  /** The split step that moves one character into the first piece. */
  lemma {:induction false} SplitJoinPastChar(s: string, sep: string)
    requires |sep| > 0 && |s| >= |sep| && s[..|sep|] != sep
    ensures Join(SplitOn(s, sep), sep) == s
    decreases |s|, 0
  {
    var t := s[1..];
    var rest := SplitOn(t, sep);
    calc {
      Join(SplitOn(s, sep), sep);
      Join([[s[0]] + rest[0]] + rest[1..], sep);
      { JoinExtendFirst([s[0]], rest, sep); }
      [s[0]] + Join(rest, sep);
      { SplitJoinRoundTrip(t, sep); }
      [s[0]] + t;
      s;
    }
  }

  lemma JoinCons(x: string, rest: seq<string>, sep: string)
    requires |rest| > 0
    ensures Join([x] + rest, sep) == x + sep + Join(rest, sep)
  {
    assert ([x] + rest)[1..] == rest;
  }

  lemma JoinConsEmpty(rest: seq<string>, sep: string)
    requires |rest| > 0
    ensures Join([""] + rest, sep) == sep + Join(rest, sep)
  {
    JoinCons("", rest, sep);
    assert "" + sep == sep;
  }

  /** Growing the first part grows the joined string by the same prefix. */
  lemma JoinExtendFirst(a: string, rest: seq<string>, sep: string)
    requires |rest| > 0
    ensures Join([a + rest[0]] + rest[1..], sep) == a + Join(rest, sep)
  {
    if |rest| > 1 {
      JoinCons(a + rest[0], rest[1..], sep);
      JoinCons(rest[0], rest[1..], sep);
      assert [rest[0]] + rest[1..] == rest;
    }
  }

  /** Pieces free of `c`, empty ones included, joined with `c` split back into
      themselves. */
  lemma {:induction false} JoinSplitPieces(pieces: seq<string>, c: char)
    requires |pieces| > 0
    requires forall k :: 0 <= k < |pieces| ==> c !in pieces[k]
    ensures SplitOn(Join(pieces, [c]), [c]) == pieces
  {
    NoCharNoOccurrence(pieces[0], c);
    if |pieces| == 1 {
      SplitNoSep(pieces[0], [c]);
    } else {
      assert pieces[0] + [c][..0] == pieces[0];
      SplitConcat(pieces[0], [c], Join(pieces[1..], [c]));
      JoinSplitPieces(pieces[1..], c);
      assert [pieces[0]] + pieces[1..] == pieces;
    }
  }

  /** Joining non-empty lines free of `c` with `c`, re-splitting on `c` and dropping
      the empty pieces gives the lines back. */
  lemma JoinSplitRoundTrip(lines: seq<string>, c: char)
    requires forall k :: 0 <= k < |lines| ==> lines[k] != "" && c !in lines[k]
    ensures NonEmpty(SplitOn(Join(lines, [c]), [c])) == lines
  {
    if |lines| > 0 {
      JoinSplitPieces(lines, c);
      NonEmptyKeeps(lines);
    }
  }
  function DigitChar(d: nat): char
    requires d < 10
  {
    ('0' as int + d) as char
  }

  /** String(n) for a non-negative integer: its decimal digits, no leading zero. */
  function NatToString(n: nat): (s: string)
    ensures |s| > 0
    ensures forall k :: 0 <= k < |s| ==> '0' <= s[k] <= '9'
    ensures |s| > 1 ==> s[0] != '0'
  {
    if n < 10 then [DigitChar(n)] else NatToString(n / 10) + [DigitChar(n % 10)]
  }

  /** The value of a string of decimal digits. */
  function ParseNat(s: string): nat
  {
    if |s| == 0 then 0
    else ParseNat(s[..|s| - 1]) * 10 + (if '0' <= s[|s| - 1] <= '9' then s[|s| - 1] as int - '0' as int else 0)
  }

  /** Printing then parsing a number gives it back, so the printing is injective. */
  lemma {:induction false} ParseNatRoundTrip(n: nat)
    ensures ParseNat(NatToString(n)) == n
  {
    if n >= 10 {
      ParseNatRoundTrip(n / 10);
      var s := NatToString(n);
      assert s[..|s| - 1] == NatToString(n / 10);
    }
  }
}
