/** The string operations the importer borrows from Python's `str`: `strip`,
    `startswith`, `split`, `lower`, and the text before the first occurrence of a separator. */
module Text {

  /** Python's `str.isspace`: the characters that `strip()` with no argument removes. */
  predicate IsSpace(c: char) {
    var n := c as int;
    || n == 0x20 || 0x09 <= n <= 0x0D || 0x1C <= n <= 0x1F
    || n == 0x85 || n == 0xA0 || n == 0x1680 || 0x2000 <= n <= 0x200A
    || n == 0x2028 || n == 0x2029 || n == 0x202F || n == 0x205F || n == 0x3000
  }

  /** The character sets of `strip(":")` and `strip("#;")`. */
  predicate IsColon(c: char) { c == ':' }
  predicate IsHashOrSemicolon(c: char) { c == '#' || c == ';' }

  /** Python `s.lstrip(chars)`, with the character set given as a predicate. */
  function TrimStart(s: string, drop: char -> bool): string
    decreases |s|
  {
    if s != [] && drop(s[0]) then TrimStart(s[1..], drop) else s
  }

  /** Python `s.rstrip(chars)`, with the character set given as a predicate. */
  function TrimEnd(s: string, drop: char -> bool): string
    decreases |s|
  {
    if s != [] && drop(s[|s| - 1]) then TrimEnd(s[..|s| - 1], drop) else s
  }

  /** Python `s.strip(chars)`, with the character set given as a predicate. */
  function Trim(s: string, drop: char -> bool): string {
    TrimEnd(TrimStart(s, drop), drop)
  }

  /** Python `s.strip()`. */
  function Strip(s: string): string {
    Trim(s, IsSpace)
  }

  /** Neither end of `s` is a character that `drop` removes. */
  predicate Trimmed(s: string, drop: char -> bool) {
    s == [] || (!drop(s[0]) && !drop(s[|s| - 1]))
  }

  /** Python `s.startswith(prefix)`. */
  predicate StartsWith(s: string, prefix: string) {
    |prefix| <= |s| && s[..|prefix|] == prefix
  }

  /** ASCII case folding, the part of Python `str.lower` this model keeps. */
  function LowerChar(c: char): char {
    if 'A' <= c <= 'Z' then (c as int + 32) as char else c
  }

  function Lower(s: string): string {
    seq(|s|, i requires 0 <= i < |s| => LowerChar(s[i]))
  }

  predicate HasNoUpper(s: string) {
    forall i | 0 <= i < |s| :: !('A' <= s[i] <= 'Z')
  }

  /** Index of the first `c` in `s`, or `|s|` when there is none. */
  function IndexOf(s: string, c: char): (i: nat)
    ensures i <= |s|
    ensures i < |s| ==> s[i] == c
    ensures forall j | 0 <= j < i :: s[j] != c
  {
    if s == [] then 0
    else if s[0] == c then 0
    else 1 + IndexOf(s[1..], c)
  }

  /** Python `c.join(parts)`. */
  function Join(parts: seq<string>, c: char): string
    decreases |parts|
  {
    if parts == [] then ""
    else if |parts| == 1 then parts[0]
    else parts[0] + [c] + Join(parts[1..], c)
  }

  /** Python `s.split(c)` for a one-character separator: the pieces between the
      separators, never none (see `SplitPieces` and `SplitJoin`). */
  function Split(s: string, c: char): (r: seq<string>)
    ensures |r| >= 1
    decreases |s|
  {
    var i := IndexOf(s, c);
    if i == |s| then [s]
    else [s[..i]] + Split(s[i + 1..], c)
  }

  /** The last piece of `s.split(c)`, Python `s.split(c)[-1]`. */
  function LastPiece(s: string, c: char): string {
    var pieces := Split(s, c);
    pieces[|pieces| - 1]
  }

  /** `sep` occurs in `s` at index `i`. */
  predicate OccursAt(s: string, sep: string, i: nat) {
    i + |sep| <= |s| && s[i..i + |sep|] == sep
  }

  /** The first index at or after `from` where `sep` occurs, or `|s|`. */
  function FirstOccurrence(s: string, sep: string, from: nat): (i: nat)
    requires from <= |s|
    ensures from <= i <= |s|
    ensures i < |s| ==> OccursAt(s, sep, i)
    ensures forall j | from <= j < i :: !OccursAt(s, sep, j)
    decreases |s| - from
  {
    if from == |s| then |s|
    else if OccursAt(s, sep, from) then from
    else FirstOccurrence(s, sep, from + 1)
  }

  /** Python `s.split(sep)[0]`: the text before the first occurrence of `sep`. */
  function BeforeFirst(s: string, sep: string): string {
    s[..FirstOccurrence(s, sep, 0)]
  }

  // ---------------------------------------------------------------------------
  // Lemmas

  /** `lstrip` removes the longest prefix of dropped characters and nothing else. */
  lemma {:induction false} TrimStartSpec(s: string, drop: char -> bool)
    ensures var r := TrimStart(s, drop);
            && |r| <= |s| && r == s[|s| - |r|..]
            && (forall i | 0 <= i < |s| - |r| :: drop(s[i]))
            && (r != [] ==> !drop(r[0]))
    decreases |s|
  {
    if s != [] && drop(s[0]) {
      TrimStartSpec(s[1..], drop);
      var r := TrimStart(s[1..], drop);
      assert s[1..][|s| - 1 - |r|..] == s[|s| - |r|..];
      assert forall i | 1 <= i < |s| - |r| :: s[i] == s[1..][i - 1];
    }
  }

  /** `rstrip` removes the longest suffix of dropped characters and nothing else. */
  lemma {:induction false} TrimEndSpec(s: string, drop: char -> bool)
    ensures var r := TrimEnd(s, drop);
            && |r| <= |s| && r == s[..|r|]
            && (forall i | |r| <= i < |s| :: drop(s[i]))
            && (r != [] ==> !drop(r[|r| - 1]))
    decreases |s|
  {
    if s != [] && drop(s[|s| - 1]) {
      TrimEndSpec(s[..|s| - 1], drop);
      var r := TrimEnd(s[..|s| - 1], drop);
      assert s[..|s| - 1][..|r|] == s[..|r|];
    }
  }

  /** No piece of a split holds the separator, and joining the pieces gives the text
      back. */
  lemma {:induction false} SplitPieces(s: string, c: char)
    ensures forall i | 0 <= i < |Split(s, c)| :: c !in Split(s, c)[i]
    ensures Join(Split(s, c), c) == s
    decreases |s|
  {
    var i := IndexOf(s, c);
    if i == |s| {
      assert forall j | 0 <= j < |s| :: s[j] != c;
    } else {
      SplitPieces(s[i + 1..], c);
      var rest := Split(s[i + 1..], c);
      var r := Split(s, c);
      assert r == [s[..i]] + rest;
      assert r[1..] == rest;
      assert s == s[..i] + [c] + s[i + 1..];
    }
  }

  /** Splitting a join of separator-free pieces gives the pieces back. */
  lemma {:induction false} SplitJoin(parts: seq<string>, c: char)
    requires |parts| >= 1
    requires forall i | 0 <= i < |parts| :: c !in parts[i]
    ensures Split(Join(parts, c), c) == parts
    decreases |parts|
  {
    var s := Join(parts, c);
    if |parts| == 1 {
      assert c !in s;
    } else {
      var rest := Join(parts[1..], c);
      assert s == parts[0] + [c] + rest;
      var i := IndexOf(s, c);
      assert i == |parts[0]| by {
        assert s[|parts[0]|] == c;
        assert forall j | 0 <= j < |parts[0]| :: s[j] == parts[0][j] && s[j] != c;
      }
      assert s[..i] == parts[0];
      assert s[i + 1..] == rest;
      SplitJoin(parts[1..], c);
      assert parts == [parts[0]] + parts[1..];
    }
  }

  /** Removing a prefix of dropped characters in front of a kept character. */
  lemma {:induction false} TrimStartPadded(pad: string, s: string, drop: char -> bool)
    requires forall i | 0 <= i < |pad| :: drop(pad[i])
    requires s == [] || !drop(s[0])
    ensures TrimStart(pad + s, drop) == s
    decreases |pad|
  {
    if pad != [] {
      assert (pad + s)[1..] == pad[1..] + s;
      TrimStartPadded(pad[1..], s, drop);
    }
  }

  /** Removing a suffix of dropped characters behind a kept character. */
  lemma {:induction false} TrimEndPadded(s: string, pad: string, drop: char -> bool)
    requires forall i | 0 <= i < |pad| :: drop(pad[i])
    requires s == [] || !drop(s[|s| - 1])
    ensures TrimEnd(s + pad, drop) == s
    decreases |pad|
  {
    if pad != [] {
      assert (s + pad)[..|s + pad| - 1] == s + pad[..|pad| - 1];
      TrimEndPadded(s, pad[..|pad| - 1], drop);
    } else {
      assert s + pad == s;
    }
  }

  /** `strip` removes exactly the padding around a text whose ends are kept. */
  lemma TrimPadded(front: string, s: string, back: string, drop: char -> bool)
    requires forall i | 0 <= i < |front| :: drop(front[i])
    requires forall i | 0 <= i < |back| :: drop(back[i])
    requires Trimmed(s, drop)
    ensures Trim(front + s + back, drop) == s
  {
    if s == [] {
      assert front + s + back == front + back;
      assert forall i | 0 <= i < |front + back| :: drop((front + back)[i]);
      TrimStartPadded(front + back, [], drop);
      assert front + back + [] == front + back;
    } else {
      assert front + s + back == front + (s + back);
      TrimStartPadded(front, s + back, drop);
      TrimEndPadded(s, back, drop);
    }
  }

  /** A text whose ends are kept is its own `strip`. */
  lemma TrimmedIsFixed(s: string, drop: char -> bool)
    requires Trimmed(s, drop)
    ensures Trim(s, drop) == s
  {
    TrimPadded([], s, [], drop);
    assert [] + s + [] == s;
  }

  /** `strip` always yields a text whose ends are kept, so it is idempotent. */
  lemma TrimIsTrimmed(s: string, drop: char -> bool)
    ensures Trimmed(Trim(s, drop), drop)
    ensures Trim(Trim(s, drop), drop) == Trim(s, drop)
  {
    var t := TrimStart(s, drop);
    var r := TrimEnd(t, drop);
    TrimStartSpec(s, drop);
    TrimEndSpec(t, drop);
    if r != [] {
      assert r[0] == t[0];
    }
    TrimmedIsFixed(r, drop);
  }

  /** Lower-casing leaves no ASCII capital and does not touch spaces. */
  lemma LowerFacts(s: string)
    ensures |Lower(s)| == |s|
    ensures HasNoUpper(Lower(s))
    ensures Trimmed(s, IsSpace) ==> Trimmed(Lower(s), IsSpace)
    ensures HasNoUpper(s) ==> Lower(s) == s
  {
  }

  /** The last piece of a split is whatever follows the first separator's last piece. */
  lemma {:induction false} LastPieceStep(s: string, c: char)
    requires IndexOf(s, c) < |s|
    ensures LastPiece(s, c) == LastPiece(s[IndexOf(s, c) + 1..], c)
  {
    var i := IndexOf(s, c);
    var rest := Split(s[i + 1..], c);
    assert Split(s, c) == [s[..i]] + rest;
  }

  /** Without a separator, `s` is its own last piece. */
  lemma LastPieceWhole(s: string, c: char)
    requires c !in s
    ensures LastPiece(s, c) == s
  {
    assert IndexOf(s, c) == |s|;
  }

  /** The last piece of a split is whatever follows the last separator. */
  lemma {:induction false} LastPieceAfter(a: string, c: char, b: string)
    requires c !in b
    ensures LastPiece(a + [c] + b, c) == b
    decreases |a|
  {
    var s := a + [c] + b;
    assert s[|a|] == c;
    var i := IndexOf(s, c);
    LastPieceStep(s, c);
    if i == |a| {
      assert s[i + 1..] == b;
      LastPieceWhole(b, c);
    } else {
      assert s[i + 1..] == a[i + 1..] + [c] + b;
      LastPieceAfter(a[i + 1..], c, b);
    }
  }
}
