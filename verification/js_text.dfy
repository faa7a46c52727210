/** The two JavaScript string operations the OBJ importer relies on:
    `String.prototype.trim` and `String.prototype.split` with a one-character
    separator. JavaScript strings are UTF-16 code units; here a `char` stands for
    a code point. Nothing in the importer depends on the difference, because no
    WhiteSpace or LineTerminator, space or `/` is a surrogate. */
module JsText {

  /** WhiteSpace and LineTerminator code points of ECMAScript (sections 12.2
      and 12.3 of ECMA-262); `trim` and `Number(string)` strip exactly these. */
  predicate IsWhiteSpace(c: char) {
    var n := c as int;
    n == 0x09 || n == 0x0B || n == 0x0C || n == 0x20 || n == 0xA0 || n == 0xFEFF
    || n == 0x1680 || (0x2000 <= n <= 0x200A) || n == 0x202F || n == 0x205F || n == 0x3000
    || n == 0x0A || n == 0x0D || n == 0x2028 || n == 0x2029
  }

  /** The number of white-space code units `s` starts with. */
  function LeadingSpace(s: string): (n: nat)
    ensures n <= |s|
    ensures forall k :: 0 <= k < n ==> IsWhiteSpace(s[k])
    ensures n == |s| || !IsWhiteSpace(s[n])
  {
    if |s| > 0 && IsWhiteSpace(s[0]) then 1 + LeadingSpace(s[1..]) else 0
  }

  /** Where the white space `s` ends with begins. */
  function TrailingStart(s: string): (n: nat)
    ensures n <= |s|
    ensures forall k :: n <= k < |s| ==> IsWhiteSpace(s[k])
    ensures n == 0 || !IsWhiteSpace(s[n - 1])
  {
    if |s| > 0 && IsWhiteSpace(s[|s| - 1]) then TrailingStart(s[..|s| - 1]) else |s|
  }

  /** `TrimString(s, start)`: drops the leading white space. */
  function TrimStart(s: string): (r: string)
    ensures |r| <= |s| && r == s[LeadingSpace(s)..]
    ensures |r| == 0 || !IsWhiteSpace(r[0])
  {
    s[LeadingSpace(s)..]
  }

  /** `TrimString(s, end)`: drops the trailing white space. */
  function TrimEnd(s: string): (r: string)
    ensures |r| <= |s| && r == s[..TrailingStart(s)]
    ensures |r| == 0 || !IsWhiteSpace(r[|r| - 1])
  {
    s[..TrailingStart(s)]
  }

  /** `s.trim()`: the slice of `s` between its leading and its trailing
      white space. */
  function Trim(s: string): (r: string)
    ensures var i := LeadingSpace(s); var j := i + TrailingStart(s[i..]);
      && i <= j <= |s| && r == s[i..j]
      && (forall k :: 0 <= k < i ==> IsWhiteSpace(s[k]))
      && (forall k :: j <= k < |s| ==> IsWhiteSpace(s[k]))
    ensures |r| == 0 || (!IsWhiteSpace(r[0]) && !IsWhiteSpace(r[|r| - 1]))
  {
    var i := LeadingSpace(s);
    var t := s[i..];
    var j := i + TrailingStart(t);
    TrimTail(s, i);
    s[i..j]
  }

  /** The white space at the end of `s[i..]` is the white space at the end of `s`. */
  lemma TrimTail(s: string, i: nat)
    requires i <= |s|
    ensures var j := i + TrailingStart(s[i..]);
      j <= |s| && forall k :: j <= k < |s| ==> IsWhiteSpace(s[k])
  {
    var t := s[i..];
    var j := i + TrailingStart(t);
    forall k | j <= k < |s| ensures IsWhiteSpace(s[k]) {
      assert s[k] == t[k - i];
    }
  }

  /** `s.split(c)` for a one-character separator: the pieces between the
      occurrences of `c`. There is always at least one piece ("" splits into
      [""]). */
  function Split(s: string, c: char): (r: seq<string>)
    ensures |r| >= 1
    ensures forall k :: 0 <= k < |r| ==> c !in r[k]
  {
    if |s| == 0 then [""]
    else
      var rest := Split(s[1..], c);
      if s[0] == c then [""] + rest else [[s[0]] + rest[0]] + rest[1..]
  }

  /** `pieces.join(c)`. */
  function Join(pieces: seq<string>, c: char): string
    requires |pieces| >= 1
  {
    if |pieces| == 1 then pieces[0] else pieces[0] + [c] + Join(pieces[1..], c)
  }

  /** Number of occurrences of `c` in `s`. */
  function Occurrences(s: string, c: char): nat {
    if |s| == 0 then 0 else (if s[0] == c then 1 else 0) + Occurrences(s[1..], c)
  }

  /** Position of the first `c` in `s`, or |s| when there is none. */
  function FirstIndex(s: string, c: char): (i: nat)
    ensures i <= |s|
    ensures c !in s[..i]
    ensures i < |s| ==> s[i] == c
  {
    if |s| == 0 then 0 else if s[0] == c then 0 else 1 + FirstIndex(s[1..], c)
  }

  /** The first `c` of `s` is at `n` when `s[n]` is one and none comes before. */
  lemma {:induction false} FirstIndexAt(s: string, c: char, n: nat)
    requires n < |s| && s[n] == c && c !in s[..n]
    ensures FirstIndex(s, c) == n
  {
    if n > 0 {
      assert s[0] == s[..n][0];
      assert s[1..][..n - 1] == s[1..n];
      assert forall k :: 0 <= k < n - 1 ==> s[1..n][k] == s[..n][k + 1];
      FirstIndexAt(s[1..], c, n - 1);
    }
  }

  /** Splitting and re-joining gives back the string. */
  lemma {:induction false} JoinSplit(s: string, c: char)
    ensures Join(Split(s, c), c) == s
    decreases |s|
  {
    if |s| > 0 {
      var rest := Split(s[1..], c);
      JoinSplit(s[1..], c);
      if s[0] != c {
        if |rest| > 1 {
          assert Join(rest, c) == rest[0] + [c] + Join(rest[1..], c);
          assert Join(Split(s, c), c) == [s[0]] + rest[0] + [c] + Join(rest[1..], c);
        }
      }
    }
  }

  /** Joining separator-free pieces and splitting again gives back the pieces. */
  lemma {:induction false} SplitJoin(pieces: seq<string>, c: char)
    requires |pieces| >= 1
    requires forall k :: 0 <= k < |pieces| ==> c !in pieces[k]
    ensures Split(Join(pieces, c), c) == pieces
    decreases |pieces|, |pieces[0]|
  {
    var p := pieces[0];
    if |p| > 0 {
      var tail := [p[1..]] + pieces[1..];
      assert Join(pieces, c) == [p[0]] + Join(tail, c) by {
        if |pieces| > 1 {
          assert Join(tail, c) == p[1..] + [c] + Join(pieces[1..], c);
        }
      }
      assert c !in p[1..] by {
        forall k | 0 <= k < |p| - 1 ensures p[1..][k] != c {
          assert p[1..][k] == p[k + 1];
        }
      }
      SplitJoin(tail, c);
      assert ([p[0]] + Join(tail, c))[1..] == Join(tail, c);
      assert [p[0]] + p[1..] == p;
      assert pieces == [p] + pieces[1..];
    } else if |pieces| > 1 {
      assert Join(pieces, c) == [c] + Join(pieces[1..], c);
      SplitJoin(pieces[1..], c);
      assert ([c] + Join(pieces[1..], c))[1..] == Join(pieces[1..], c);
    }
  }

  /** There is one more piece than there are separators. */
  lemma {:induction false} SplitCount(s: string, c: char)
    ensures |Split(s, c)| == Occurrences(s, c) + 1
    decreases |s|
  {
    if |s| > 0 {
      SplitCount(s[1..], c);
    }
  }

  /** The first piece is everything before the first separator, and the other
      pieces are the split of what follows it. */
  lemma {:induction false} SplitAtFirst(s: string, c: char)
    ensures Split(s, c)[0] == s[..FirstIndex(s, c)]
    ensures FirstIndex(s, c) < |s| ==> Split(s, c)[1..] == Split(s[FirstIndex(s, c) + 1..], c)
    ensures FirstIndex(s, c) == |s| ==> Split(s, c) == [s]
    decreases |s|
  {
    if |s| > 0 && s[0] != c {
      SplitAtFirst(s[1..], c);
      assert [s[0]] + s[1..] == s;
      assert [s[0]] + s[1..][..FirstIndex(s[1..], c)] == s[..FirstIndex(s, c)];
      if FirstIndex(s, c) < |s| {
        assert s[1..][FirstIndex(s[1..], c) + 1..] == s[FirstIndex(s, c) + 1..];
      }
    }
  }
}
